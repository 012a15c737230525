/** The cache of resources that tool servers have announced, and its dirty set. */
module Resources {
  import opened Wrappers

  const U64_MAX: nat := 0xFFFF_FFFF_FFFF_FFFF

  datatype Snapshot = Snapshot(owner: string, seqNo: nat)

  /** Strings compare by their bytes, which for UTF-8 is the order of their characters. */
  predicate Less(a: string, b: string) {
    if b == "" then false
    else if a == "" then true
    else a[0] < b[0] || (a[0] == b[0] && Less(a[1..], b[1..]))
  }

  lemma {:induction false} LessTotal(a: string, b: string)
    ensures a == b || Less(a, b) || Less(b, a)
    ensures !(Less(a, b) && Less(b, a)) && !Less(a, a)
    decreases |a|
  {
    if a != "" {
      LessTotal(a[1..], a[1..]);
      if b != "" {
        LessTotal(a[1..], b[1..]);
        if a[0] == b[0] && a[1..] == b[1..] { assert a == [a[0]] + a[1..] == b; }
      }
    }
  }

  lemma {:induction false} LessTransitive(a: string, b: string, c: string)
    requires Less(a, b) && Less(b, c)
    ensures Less(a, c)
    decreases |a|
  {
    if a != "" && a[0] == b[0] == c[0] {
      LessTransitive(a[1..], b[1..], c[1..]);
    }
  }

  predicate StrictlySorted(uris: seq<string>) {
    forall i, j | 0 <= i < j < |uris| :: Less(uris[i], uris[j])
  }

  ghost function Elements(uris: seq<string>): set<string> { set u <- uris }

  /** A set has one strictly sorted listing, so a drain does not depend on how the hash set
      iterates. */
  lemma {:induction false} ListingUnique(a: seq<string>, b: seq<string>)
    requires StrictlySorted(a) && StrictlySorted(b) && Elements(a) == Elements(b)
    ensures a == b
    decreases |a|
  {
    assert a != [] ==> a[0] in Elements(a);
    assert b != [] ==> b[0] in Elements(b);
    if a != [] {
      FirstIsLeast(a, b[0]);
      FirstIsLeast(b, a[0]);
      LessTotal(a[0], b[0]);
      RestElements(a);
      RestElements(b);
      ListingUnique(a[1..], b[1..]);
      assert a == [a[0]] + a[1..];
    }
  }

  lemma FirstIsLeast(uris: seq<string>, u: string)
    requires StrictlySorted(uris) && uris != [] && (u in uris || u in Elements(uris))
    ensures u == uris[0] || Less(uris[0], u)
  {}

  lemma RestElements(uris: seq<string>)
    requires StrictlySorted(uris) && uris != []
    ensures Elements(uris[1..]) == Elements(uris) - {uris[0]}
  {
    LessTotal(uris[0], uris[0]);
    assert uris == [uris[0]] + uris[1..];
    forall u <- uris[1..] ensures u != uris[0] {
      var k :| 0 <= k < |uris[1..]| && uris[1..][k] == u;
      assert uris[k + 1] == u;
    }
  }

  /** Where `u` belongs in a sorted listing. */
  method SortedPlace(uris: seq<string>, u: string) returns (k: nat)
    requires StrictlySorted(uris) && u !in uris
    ensures k <= |uris| && StrictlySorted(uris[..k] + [u] + uris[k..])
  {
    k := 0;
    while k < |uris| && Less(uris[k], u)
      invariant k <= |uris| && forall i | 0 <= i < k :: Less(uris[i], u)
    {
      k := k + 1;
    }
    forall i | k <= i < |uris| ensures Less(u, uris[i]) {
      LessTotal(uris[k], u);
      if i > k { LessTransitive(u, uris[k], uris[i]); }
    }
  }

  // ---- the cache -----------------------------------------------------------------------

  /** `nextSeq` is the number of the next notification; it saturates at 64 bits. */
  datatype Cache = Cache(entries: map<string, Snapshot>, dirty: set<string>, nextSeq: nat)

  const EMPTY := Cache(map[], {}, 0)

  function SaturatingSucc(n: nat): nat { if n < U64_MAX then n + 1 else n }

  function Marked(c: Cache, uri: string, owner: string): Cache {
    var n := SaturatingSucc(c.nextSeq);
    Cache(c.entries[uri := Snapshot(owner, n)], c.dirty + {uri}, n)
  }

  lemma ElementsInsert(uris: seq<string>, k: nat, u: string)
    requires k <= |uris|
    ensures Elements(uris[..k] + [u] + uris[k..]) == Elements(uris) + {u}
  {
    assert uris == uris[..k] + uris[k..];
    var more := uris[..k] + [u] + uris[k..];
    assert more[k] == u;
    forall x <- uris ensures x in more {
      var i :| 0 <= i < |uris| && uris[i] == x;
      assert more[if i < k then i else i + 1] == x;
    }
  }

  // ---- runs ---------------------------------------------------------------------------------

  datatype Event = Mark(uri: string, owner: string) | Drain

  function Run(events: seq<Event>): Cache {
    if events == [] then EMPTY
    else
      var c := Run(events[..|events| - 1]);
      match events[|events| - 1]
      case Mark(uri, owner) => Marked(c, uri, owner)
      case Drain => c.(dirty := {})
  }

  /** Event `i` marks `uri`. */
  predicate Marks(events: seq<Event>, i: nat, uri: string) {
    i < |events| && events[i].Mark? && events[i].uri == uri
  }

  predicate DrainedAfter(events: seq<Event>, i: nat) {
    exists j | i < j < |events| :: events[j].Drain?
  }

  /** How many notifications there were among the first `n` events. */
  function MarkCount(events: seq<Event>, n: nat): nat
    requires n <= |events|
  {
    if n == 0 then 0 else MarkCount(events, n - 1) + if events[n - 1].Mark? then 1 else 0
  }

  function Saturated(n: nat): nat { if n < U64_MAX then n else U64_MAX }

  lemma {:induction false} MarkCountPrefix(events: seq<Event>, ev: Event, n: nat)
    requires n <= |events|
    ensures MarkCount(events + [ev], n) == MarkCount(events, n)
    decreases n
  {
    if n > 0 { MarkCountPrefix(events, ev, n - 1); }
  }

  /** The dirty set, and so the next drain, is what was marked since the previous drain: nothing
      is lost and nothing is reported twice. */
  lemma {:induction false} DirtyIsMarkedSinceDrain(events: seq<Event>, uri: string)
    ensures uri in Run(events).dirty <==> exists i: nat :: Marks(events, i, uri) && !DrainedAfter(events, i)
    decreases |events|
  {
    if events != [] {
      var n := |events| - 1;
      var front := events[..n];
      DirtyIsMarkedSinceDrain(front, uri);
      if events[n].Drain? {
        forall i: nat | Marks(events, i, uri) ensures DrainedAfter(events, i) {
          assert i < n;
        }
      } else {
        if i: nat :| Marks(front, i, uri) && !DrainedAfter(front, i) {
          assert Marks(events, i, uri) && !DrainedAfter(events, i);
        }
        if i: nat :| Marks(events, i, uri) && !DrainedAfter(events, i) {
          if i < n {
            assert Marks(front, i, uri);
            forall j | i < j < |front| ensures !front[j].Drain? { assert front[j] == events[j]; }
          }
        }
        if events[n].uri == uri {
          assert Marks(events, n, uri) && !DrainedAfter(events, n);
        }
      }
    }
  }

  function MarkSnapshot(events: seq<Event>, i: nat): Snapshot
    requires i < |events| && events[i].Mark?
  {
    Snapshot(events[i].owner, Saturated(MarkCount(events, i + 1)))
  }

  /** An entry is there for every marked resource and no other. It holds the owner named by the
      last mark, and the position of that mark among all marks, saturated at 64 bits. */
  lemma {:induction false} EntryIsLastMark(events: seq<Event>, uri: string)
    ensures var c := Run(events);
            && c.nextSeq == Saturated(MarkCount(events, |events|))
            && (uri in c.dirty ==> uri in c.entries)
            && (uri in c.entries <==> exists i: nat :: Marks(events, i, uri))
            && (uri in c.entries ==>
                  exists i: nat :: LastMark(events, i, uri) && c.entries[uri] == MarkSnapshot(events, i))
    decreases |events|
  {
    if events != [] {
      var n := |events| - 1;
      var front := events[..n];
      EntryIsLastMark(front, uri);
      assert events == front + [events[n]];
      MarkCountPrefix(front, events[n], n);
      if events[n].Mark? && events[n].uri == uri {
        assert LastMark(events, n, uri);
        assert Marks(events, n, uri);
      } else {
        if uri in Run(front).entries {
          var i: nat :| LastMark(front, i, uri) && Run(front).entries[uri] == MarkSnapshot(front, i);
          MarkCountPrefix(front, events[n], i + 1);
          forall j | i < j < |events| ensures !Marks(events, j, uri) {
            if j < n { assert !Marks(front, j, uri); }
          }
          assert LastMark(events, i, uri);
        }
        forall i: nat | Marks(events, i, uri) ensures Marks(front, i, uri) {}
      }
    }
  }

  predicate LastMark(events: seq<Event>, i: nat, uri: string) {
    Marks(events, i, uri) && forall j | i < j < |events| :: !Marks(events, j, uri)
  }

  /** Two resources are told apart by their numbers, the later marked having the greater one,
      exactly until the earlier of the two marks is at the 64-bit bound. */
  lemma LaterMarkIsGreaterIff(events: seq<Event>, i: nat, j: nat)
    requires i < j < |events| && events[i].Mark? && events[j].Mark?
    ensures Saturated(MarkCount(events, i + 1)) < Saturated(MarkCount(events, j + 1)) <==>
            MarkCount(events, i + 1) < U64_MAX
  {
    MarkCountGrows(events, i + 1, j);
  }

  lemma {:induction false} MarkCountGrows(events: seq<Event>, a: nat, b: nat)
    requires a <= b <= |events|
    ensures MarkCount(events, a) <= MarkCount(events, b)
    decreases b
  {
    if a < b { MarkCountGrows(events, a, b - 1); }
  }

  // ---- the cache object ---------------------------------------------------------------

  class ResourceCache {
    var entries: map<string, Snapshot>
    var dirty: set<string>
    var nextSeq: nat
    /** Every notification and every drain so far. */
    ghost var events: seq<Event>

    ghost predicate Valid()
      reads this
    {
      Cache(entries, dirty, nextSeq) == Run(events)
    }

    constructor ()
      ensures Valid() && events == []
    {
      entries, dirty, nextSeq, events := map[], {}, 0, [];
    }

    method MarkUpdated(uri: string, owner: string)
      requires Valid()
      modifies this
      ensures Valid() && events == old(events) + [Mark(uri, owner)]
    {
      RunSnoc(events, Mark(uri, owner));
      nextSeq := if nextSeq < U64_MAX then nextSeq + 1 else nextSeq;
      entries := entries[uri := Snapshot(owner, nextSeq)];
      dirty := dirty + {uri};
      events := events + [Mark(uri, owner)];
    }

    /** The owner named by the last notification for the resource, if there ever was one. */
    method Owner(uri: string) returns (owner: Option<string>)
      requires Valid()
      ensures owner.None? <==> forall i: nat :: !Marks(events, i, uri)
      ensures owner.Some? ==> exists i: nat :: LastMark(events, i, uri) && events[i].owner == owner.value
    {
      EntryIsLastMark(events, uri);
      owner := if uri in entries then Some(entries[uri].owner) else None;
    }

    /** Empties the dirty set into a sorted listing, whatever order its elements come out in: the
        resources announced since the drain before. */
    method DrainDirty() returns (uris: seq<string>)
      requires Valid()
      modifies this
      ensures Valid() && events == old(events) + [Drain]
      ensures StrictlySorted(uris)
      ensures forall uri :: uri in uris <==>
              exists i: nat :: Marks(old(events), i, uri) && !DrainedAfter(old(events), i)
    {
      RunSnoc(events, Drain);
      ghost var all := dirty;
      uris := [];
      while dirty != {}
        invariant StrictlySorted(uris) && dirty !! Elements(uris)
        invariant dirty + Elements(uris) == all
        invariant entries == old(entries) && nextSeq == old(nextSeq) && events == old(events)
        decreases |dirty|
      {
        var uri :| uri in dirty;
        assert uri !in uris by { assert uri !in Elements(uris); }
        var k := SortedPlace(uris, uri);
        ElementsInsert(uris, k, uri);
        uris := uris[..k] + [uri] + uris[k..];
        dirty := dirty - {uri};
      }
      events := events + [Drain];
      ListsMarked(old(events), uris);
    }
  }

  lemma RunSnoc(events: seq<Event>, ev: Event)
    ensures Run(events + [ev]) ==
            match ev case Mark(uri, owner) => Marked(Run(events), uri, owner) case Drain => Run(events).(dirty := {})
  {
    assert (events + [ev])[..|events|] == events;
  }

  lemma ListsMarked(events: seq<Event>, uris: seq<string>)
    requires Elements(uris) == Run(events).dirty
    ensures forall uri :: uri in uris <==> exists i: nat :: Marks(events, i, uri) && !DrainedAfter(events, i)
  {
    forall uri ensures uri in uris <==> exists i: nat :: Marks(events, i, uri) && !DrainedAfter(events, i) {
      DirtyIsMarkedSinceDrain(events, uri);
      assert uri in uris <==> uri in Elements(uris);
    }
  }
}
