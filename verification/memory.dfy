/** The memory store of the analysis core: named notes of four kinds, kept
    in a map keyed by kind and name. Times are whole seconds supplied by the
    caller in place of the clock. */
module Memory {
  import opened Wrappers
  import opened Strs
  import opened Seqs

  datatype MemoryType = Auto | Memo | Api | Cache

  /** `MemoryType::as_str`. */
  function TypeName(t: MemoryType): (s: string)
    ensures Lower(s) == s
  {
    match t
    case Auto => "auto"
    case Memo => "memo"
    case Api => "api"
    case Cache => "cache"
  }

  /** `MemoryType::from_str`: one of the four names, in any case. */
  function ParseType(s: string): (r: Option<MemoryType>)
    ensures r.Some? <==> Lower(s) in {"auto", "memo", "api", "cache"}
    ensures r.Some? ==> TypeName(r.value) == Lower(s)
  {
    var l := Lower(s);
    if l == "auto" then Some(Auto)
    else if l == "memo" then Some(Memo)
    else if l == "api" then Some(Api)
    else if l == "cache" then Some(Cache)
    else None
  }

  /** A type's name parses back to it. */
  lemma {:induction false} TypeRoundTrip(t: MemoryType)
    ensures ParseType(TypeName(t)) == Some(t)
  {
  }

  /** Examples: case is ignored; other words are not types. */
  lemma {:induction false} ParseTypeExamples()
    ensures ParseType("MEMO") == Some(Memo)
    ensures ParseType("notes") == None
  {
    assert Lower("MEMO") == "memo";
    assert Lower("notes") == "notes";
  }

  /** Seconds since the epoch. */
  type Time = int

  const SecondsPerDay: int := 86400

  datatype MemoryEntry = MemoryEntry(
    name: string,
    memoryType: MemoryType,
    content: string,
    createdAt: Time,
    updatedAt: Time,
    metadata: map<string, string>)

  /** `MemoryEntry::new`, created and updated at `now`, with no metadata. */
  function NewEntry(name: string, t: MemoryType, content: string, now: Time): (e: MemoryEntry)
    ensures e.name == name && e.memoryType == t && e.content == content
    ensures e.createdAt == now == e.updatedAt && e.metadata == map[]
  {
    MemoryEntry(name, t, content, now, now, map[])
  }

  type Key = (MemoryType, string)

  /** The manager's map. */
  type Store = map<Key, MemoryEntry>

  /** Each entry sits under its own kind and name; `Save` keeps this. */
  predicate WellKeyed(s: Store) {
    forall k :: k in s ==> s[k].memoryType == k.0 && s[k].name == k.1
  }

  function NotFound(t: MemoryType, name: string): string {
    "Memory not found: " + TypeName(t) + ":" + name
  }

  /** `save`: a fresh entry under the kind and name, replacing any there. */
  function Save(s: Store, t: MemoryType, name: string, content: string, now: Time): (r: Store)
    ensures (t, name) in r && r[(t, name)] == NewEntry(name, t, content, now)
    ensures forall k :: k != (t, name) ==> (k in r <==> k in s) && (k in s ==> r[k] == s[k])
    ensures WellKeyed(s) ==> WellKeyed(r)
  {
    s[(t, name) := NewEntry(name, t, content, now)]
  }

  /** `load`: the entry under the kind and name, or a not-found error. */
  function Load(s: Store, t: MemoryType, name: string): (r: Result<MemoryEntry>)
    ensures r.Ok? <==> (t, name) in s
    ensures r.Ok? ==> r.value == s[(t, name)]
    ensures r.Err? ==> r.msg == NotFound(t, name)
  {
    if (t, name) in s then Ok(s[(t, name)]) else Err(NotFound(t, name))
  }

  /** `delete`: the store without the entry, or a not-found error. */
  function Delete(s: Store, t: MemoryType, name: string): (r: Result<Store>)
    ensures r.Ok? <==> (t, name) in s
    ensures r.Ok? ==> (t, name) !in r.value && r.value.Keys == s.Keys - {(t, name)}
    ensures r.Ok? ==> forall k :: k in r.value ==> r.value[k] == s[k]
    ensures r.Err? ==> r.msg == NotFound(t, name)
  {
    if (t, name) in s then Ok(s - {(t, name)}) else Err(NotFound(t, name))
  }

  /** `clear`. */
  function Clear(s: Store): (r: Store)
    ensures r.Keys == {}
  {
    map[]
  }

  /** What is saved loads back, and saving under one key leaves every other
      key's entry alone. */
  lemma {:induction false} SaveThenLoad(s: Store, t: MemoryType, name: string, content: string, now: Time,
                                        u: MemoryType, other: string)
    ensures Load(Save(s, t, name, content, now), t, name) == Ok(NewEntry(name, t, content, now))
    ensures (u, other) != (t, name) ==> Load(Save(s, t, name, content, now), u, other) == Load(s, u, other)
  {
  }

  /** Deleting what was just saved restores a store that lacked the key; a
      second delete fails. */
  lemma {:induction false} SaveThenDelete(s: Store, t: MemoryType, name: string, content: string, now: Time)
    requires (t, name) !in s
    ensures Delete(Save(s, t, name, content, now), t, name) == Ok(s)
    ensures Delete(Delete(Save(s, t, name, content, now), t, name).value, t, name).Err?
  {
    assert Save(s, t, name, content, now) - {(t, name)} == s;
  }

  /** The filter of `list_by_type`: one kind, or every kind. */
  predicate OfKind(kind: Option<MemoryType>, e: MemoryEntry) {
    kind.None? || e.memoryType == kind.value
  }

  /** `list_by_type`: the entries of the kind (all entries for none), as a
      set since the source lists them in hash order. */
  function ListByType(s: Store, kind: Option<MemoryType>): (r: set<MemoryEntry>)
    ensures forall e :: e in r <==> (exists k :: k in s && s[k] == e) && OfKind(kind, e)
  {
    set k | k in s && OfKind(kind, s[k]) :: s[k]
  }

  /** Listing every kind lists every entry, and each entry of a well-keyed
      store is listed under exactly its own kind. */
  lemma {:induction false} ListByTypeKinds(s: Store, k: Key, t: MemoryType)
    requires WellKeyed(s) && k in s
    ensures s[k] in ListByType(s, None)
    ensures s[k] in ListByType(s, Some(t)) <==> t == k.0
  {
  }

  // ---------------------------------------------------------------------------
  // Timeline
  // ---------------------------------------------------------------------------

  /** The earliest creation time `get_timeline` keeps. */
  function Cutoff(now: Time, days: int): Time {
    now - days * SecondsPerDay
  }

  function Recent(cutoff: Time): MemoryEntry -> bool {
    (e: MemoryEntry) => e.createdAt >= cutoff
  }

  predicate NewestFirst(es: seq<MemoryEntry>) {
    forall i, j :: 0 <= i < j < |es| ==> es[i].createdAt >= es[j].createdAt
  }

  /** `e` placed into a newest-first list after every entry at least as new. */
  function Insert(e: MemoryEntry, es: seq<MemoryEntry>): (r: seq<MemoryEntry>)
    requires NewestFirst(es)
    ensures NewestFirst(r)
    ensures multiset(r) == multiset(es) + multiset{e}
    decreases |es|
  {
    if |es| == 0 then [e]
    else if es[0].createdAt >= e.createdAt then
      var rest := Insert(e, es[1..]);
      assert es == [es[0]] + es[1..];
      InsertFront(es[0], rest, e, es[1..]);
      [es[0]] + rest
    else
      [e] + es
  }

  lemma {:induction false} InsertFront(x: MemoryEntry, rest: seq<MemoryEntry>, e: MemoryEntry, tail: seq<MemoryEntry>)
    requires NewestFirst(rest) && multiset(rest) == multiset(tail) + multiset{e}
    requires x.createdAt >= e.createdAt
    requires forall k :: 0 <= k < |tail| ==> x.createdAt >= tail[k].createdAt
    ensures NewestFirst([x] + rest)
  {
    forall k | 0 <= k < |rest| ensures x.createdAt >= rest[k].createdAt {
      assert rest[k] in multiset(rest);
    }
    var r := [x] + rest;
    assert forall k :: 1 <= k < |r| ==> r[k] == rest[k - 1];
  }

  /** The entries sorted newest first. */
  function SortNewestFirst(es: seq<MemoryEntry>): (r: seq<MemoryEntry>)
    ensures NewestFirst(r) && multiset(r) == multiset(es)
    decreases |es|
  {
    if |es| == 0 then []
    else
      assert es == [es[0]] + es[1..];
      Insert(es[0], SortNewestFirst(es[1..]))
  }

  /** The store's entries in the order `order` lists its keys. */
  function EntriesIn(s: Store, order: seq<Key>): seq<MemoryEntry>
    requires forall i :: 0 <= i < |order| ==> order[i] in s
  {
    seq(|order|, i requires 0 <= i < |order| => s[order[i]])
  }

  /** `order` lists each key of the store once: the hash-map order. */
  ghost predicate Enumerates(s: Store, order: seq<Key>) {
    && (forall k :: k in s <==> k in order)
    && (forall i, j :: 0 <= i < j < |order| ==> order[i] != order[j])
  }

  /** `get_timeline`: the entries created in the last `days` days before
      `now`, newest first. */
  function Timeline(s: Store, order: seq<Key>, days: int, now: Time): (r: seq<MemoryEntry>)
    requires Enumerates(s, order)
    ensures NewestFirst(r)
    ensures multiset(r) == multiset(Filter(Recent(Cutoff(now, days)), EntriesIn(s, order)))
  {
    SortNewestFirst(Filter(Recent(Cutoff(now, days)), EntriesIn(s, order)))
  }

  /** An entry is on the timeline exactly when it is in the store and was
      created no earlier than the cutoff. */
  lemma {:induction false} TimelineMembers(s: Store, order: seq<Key>, days: int, now: Time, e: MemoryEntry)
    requires Enumerates(s, order)
    ensures e in Timeline(s, order, days, now) <==>
              (exists k :: k in s && s[k] == e) && e.createdAt >= Cutoff(now, days)
  {
    var es := EntriesIn(s, order);
    var f := Filter(Recent(Cutoff(now, days)), es);
    var r := Timeline(s, order, days, now);
    assert e in r <==> e in multiset(r);
    assert e in f <==> e in multiset(f);
    if (exists k :: k in s && s[k] == e) && e.createdAt >= Cutoff(now, days) {
      var k :| k in s && s[k] == e;
      var i :| 0 <= i < |order| && order[i] == k;
      assert es[i] == e;
      FilterKeeps(Recent(Cutoff(now, days)), es, e);
    }
    if e in f {
      var i :| 0 <= i < |es| && es[i] == e;
      assert s[order[i]] == e;
    }
  }

  /** Whatever the hash order, the timeline holds the same entries. */
  lemma {:induction false} TimelineSameEntries(s: Store, a: seq<Key>, b: seq<Key>, days: int, now: Time)
    requires Enumerates(s, a) && Enumerates(s, b)
    ensures forall e :: e in Timeline(s, a, days, now) <==> e in Timeline(s, b, days, now)
  {
    forall e ensures e in Timeline(s, a, days, now) <==> e in Timeline(s, b, days, now) {
      TimelineMembers(s, a, days, now, e);
      TimelineMembers(s, b, days, now, e);
    }
  }

  // ---------------------------------------------------------------------------
  // Statistics
  // ---------------------------------------------------------------------------

  /** The keys whose entry is of kind `t`. */
  function KeysOf(s: Store, t: MemoryType): set<Key> {
    set k | k in s && s[k].memoryType == t
  }

  /** `get_stats`: for each kind that has entries, how many. */
  function Stats(s: Store): (r: map<MemoryType, nat>)
    ensures forall t :: t in r <==> KeysOf(s, t) != {}
    ensures forall t :: t in r ==> r[t] == |KeysOf(s, t)| && r[t] > 0
  {
    map t | t in {Auto, Memo, Api, Cache} && KeysOf(s, t) != {} :: |KeysOf(s, t)|
  }

  function StatOf(r: map<MemoryType, nat>, t: MemoryType): nat {
    if t in r then r[t] else 0
  }

  /** A kind's count, zero when it has no entry. */
  lemma {:induction false} StatOfIsCount(s: Store, t: MemoryType)
    ensures StatOf(Stats(s), t) == |KeysOf(s, t)|
  {
  }

  lemma {:induction false} CardOfPartition(all: set<Key>, a: set<Key>, m: set<Key>, p: set<Key>, c: set<Key>)
    requires all == a + m + p + c
    requires a * m == {} && a * p == {} && a * c == {} && m * p == {} && m * c == {} && p * c == {}
    ensures |all| == |a| + |m| + |p| + |c|
  {
    assert (a + m) * p == {};
    assert (a + m + p) * c == {};
  }

  lemma {:induction false} KindsDisjoint(s: Store, t: MemoryType, u: MemoryType)
    requires t != u
    ensures KeysOf(s, t) * KeysOf(s, u) == {}
  {
    forall k | k in KeysOf(s, t) ensures k !in KeysOf(s, u) {
    }
  }

  lemma {:induction false} KindsCover(s: Store)
    ensures s.Keys == KeysOf(s, Auto) + KeysOf(s, Memo) + KeysOf(s, Api) + KeysOf(s, Cache)
  {
    forall k | k in s ensures k in KeysOf(s, s[k].memoryType) {
    }
  }

  /** The counts add up to the number of entries. */
  lemma {:induction false} StatsTotal(s: Store)
    ensures var r := Stats(s);
            StatOf(r, Auto) + StatOf(r, Memo) + StatOf(r, Api) + StatOf(r, Cache) == |s|
  {
    StatOfIsCount(s, Auto);
    StatOfIsCount(s, Memo);
    StatOfIsCount(s, Api);
    StatOfIsCount(s, Cache);
    KindsCover(s);
    KindsDisjoint(s, Auto, Memo);
    KindsDisjoint(s, Auto, Api);
    KindsDisjoint(s, Auto, Cache);
    KindsDisjoint(s, Memo, Api);
    KindsDisjoint(s, Memo, Cache);
    KindsDisjoint(s, Api, Cache);
    CardOfPartition(s.Keys, KeysOf(s, Auto), KeysOf(s, Memo), KeysOf(s, Api), KeysOf(s, Cache));
  }

  /** Saving a new note of a kind adds one to that kind's count. */
  lemma {:induction false} SaveCounts(s: Store, t: MemoryType, name: string, content: string, now: Time)
    requires (t, name) !in s
    ensures StatOf(Stats(Save(s, t, name, content, now)), t) == StatOf(Stats(s), t) + 1
  {
    var s' := Save(s, t, name, content, now);
    StatOfIsCount(s, t);
    StatOfIsCount(s', t);
    assert KeysOf(s', t) == KeysOf(s, t) + {(t, name)};
  }
}
