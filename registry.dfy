/** `commandMap`: the table from command id to command object, and what a
    sync does to it. */
module Registry {
  import opened Values
  import opened Protocol

  type CommandMap = map<string, Command>

  /** The property key `commandMap[cmd.id]` writes: an absent id is
      stringified to "undefined". */
  function Key(c: Command): string
  {
    Render(c.id)
  }

  /** The table after `commandMap[cmd.id] = cmd` has run for each command
      of `cs`, in order. */
  function Merge(m: CommandMap, cs: seq<Command>): (r: CommandMap)
    ensures m.Keys <= r.Keys
    ensures forall i :: 0 <= i < |cs| ==> Key(cs[i]) in r
    decreases |cs|
  {
    if |cs| == 0 then m
    else Merge(m, cs[..|cs| - 1])[Key(cs[|cs| - 1]) := cs[|cs| - 1]]
  }

  /** The commands `forEach` reaches before the first `null` entry, where
      reading `cmd.id` throws and the loop is abandoned. */
  function Leading(es: seq<Entry>): (r: seq<Command>)
    ensures |r| <= |es|
    ensures |r| < |es| ==> es[|r|].Null?
  {
    if |es| == 0 then []
    else
      match es[0]
      case Null => []
      case Object(c) => [c] + Leading(es[1..])
  }

  /** Every entry is an object, so `forEach` runs to the end. */
  predicate AllObjects(es: seq<Entry>)
  {
    forall i :: 0 <= i < |es| ==> es[i].Object?
  }

  /** The last command of `cs` whose key is `k`, if any. */
  function Latest(cs: seq<Command>, k: string): Option<Command>
    decreases |cs|
  {
    if |cs| == 0 then None
    else if Key(cs[|cs| - 1]) == k then Some(cs[|cs| - 1])
    else Latest(cs[..|cs| - 1], k)
  }

  /** `Latest` finds the one command that carries `k` and is not followed
      by another command carrying `k`. */
  lemma {:induction false} LatestIsLastWithKey(cs: seq<Command>, j: nat)
    requires j < |cs|
    requires forall i :: j < i < |cs| ==> Key(cs[i]) != Key(cs[j])
    ensures Latest(cs, Key(cs[j])) == Some(cs[j])
  {
    if j < |cs| - 1 {
      LatestIsLastWithKey(cs[..|cs| - 1], j);
    }
  }

  /** `Latest` finds nothing exactly when no command carries `k`. */
  lemma {:induction false} LatestNone(cs: seq<Command>, k: string)
    ensures Latest(cs, k).None? <==> forall i :: 0 <= i < |cs| ==> Key(cs[i]) != k
  {
    if |cs| > 0 {
      LatestNone(cs[..|cs| - 1], k);
      assert forall i :: 0 <= i < |cs| - 1 ==> cs[..|cs| - 1][i] == cs[i];
    }
  }

  /** A merged table, key by key: the latest command carrying the key
      wins, and a key no command carries keeps its earlier entry. */
  lemma {:induction false} MergeAt(m: CommandMap, cs: seq<Command>, k: string)
    ensures k in Merge(m, cs) <==> k in m || Latest(cs, k).Some?
    ensures k in Merge(m, cs) ==>
      Merge(m, cs)[k] == (if Latest(cs, k).Some? then Latest(cs, k).value else m[k])
  {
    if |cs| > 0 {
      MergeAt(m, cs[..|cs| - 1], k);
    }
  }

  /** After a sync, each id in the list maps to the last command in the
      list carrying that id. */
  lemma {:induction false} MergeLastWins(m: CommandMap, cs: seq<Command>, j: nat)
    requires j < |cs|
    requires forall i :: j < i < |cs| ==> Key(cs[i]) != Key(cs[j])
    ensures Key(cs[j]) in Merge(m, cs) && Merge(m, cs)[Key(cs[j])] == cs[j]
  {
    LatestIsLastWithKey(cs, j);
    MergeAt(m, cs, Key(cs[j]));
  }

  /** After a sync, an id no command in the list carries keeps the entry
      it had, or stays absent: a sync never deletes. */
  lemma {:induction false} MergeKeepsUnlisted(m: CommandMap, cs: seq<Command>, k: string)
    requires forall i :: 0 <= i < |cs| ==> Key(cs[i]) != k
    ensures k in Merge(m, cs) <==> k in m
    ensures k in m ==> Merge(m, cs)[k] == m[k]
  {
    LatestNone(cs, k);
    MergeAt(m, cs, k);
  }

  /** The keys after a sync are the old keys plus the keys of the list. */
  lemma {:induction false} MergeKeys(m: CommandMap, cs: seq<Command>)
    ensures Merge(m, cs).Keys == m.Keys + (set i | 0 <= i < |cs| :: Key(cs[i]))
  {
    forall k | k in Merge(m, cs)
      ensures k in m.Keys + (set i | 0 <= i < |cs| :: Key(cs[i]))
    {
      MergeAt(m, cs, k);
      LatestNone(cs, k);
    }
    forall k | k in m.Keys + (set i | 0 <= i < |cs| :: Key(cs[i]))
      ensures k in Merge(m, cs)
    {
      MergeAt(m, cs, k);
      LatestNone(cs, k);
    }
  }

  /** Two syncs in a row leave the same table as one sync of both lists. */
  lemma {:induction false} MergeAppend(m: CommandMap, a: seq<Command>, b: seq<Command>)
    ensures Merge(m, a + b) == Merge(Merge(m, a), b)
  {
    if |b| == 0 {
      assert a + b == a;
    } else {
      assert (a + b)[..|a + b| - 1] == a + b[..|b| - 1];
      MergeAppend(m, a, b[..|b| - 1]);
    }
  }

  /** Re-sending the same command list changes nothing. */
  lemma {:induction false} MergeIdempotent(m: CommandMap, cs: seq<Command>)
    ensures Merge(Merge(m, cs), cs) == Merge(m, cs)
  {
    var once := Merge(m, cs);
    forall k
      ensures (k in Merge(once, cs) <==> k in once)
      ensures k in once ==> Merge(once, cs)[k] == once[k]
    {
      MergeAt(m, cs, k);
      MergeAt(once, cs, k);
    }
  }

  /** The commands reached are the whole list exactly when no entry is
      `null`. */
  lemma {:induction false} LeadingAll(es: seq<Entry>)
    requires AllObjects(es)
    ensures |Leading(es)| == |es|
    ensures forall i :: 0 <= i < |es| ==> Leading(es)[i] == es[i].cmd
  {
    if |es| > 0 {
      assert es[0].Object?;
      LeadingAll(es[1..]);
      assert forall i :: 1 <= i < |es| ==> es[1..][i - 1] == es[i];
    }
  }

  /** A `null` entry at position `j`, after objects only, cuts the sync
      off just before it. */
  lemma {:induction false} LeadingStopsAtNull(es: seq<Entry>, j: nat)
    requires j < |es| && es[j].Null?
    requires forall i :: 0 <= i < j ==> es[i].Object?
    ensures |Leading(es)| == j
    ensures forall i :: 0 <= i < j ==> Leading(es)[i] == es[i].cmd
  {
    if j > 0 {
      assert es[0].Object?;
      assert forall i :: 1 <= i < |es| ==> es[1..][i - 1] == es[i];
      LeadingStopsAtNull(es[1..], j - 1);
    }
  }
}
