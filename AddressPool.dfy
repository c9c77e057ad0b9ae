/**
 * The shipping-location pool (src/components/Kits.tsx:69-92): the street
 * addresses of `shippingFullLocations` followed by those of `locations`,
 * duplicates dropped keeping the first occurrence (`new Set`), and empty
 * strings filtered out.
 */
module AddressPool {
  import opened Wrappers
  import opened LocationDraft

  predicate NoDuplicates<T(==)>(s: seq<T>) {
    forall i, j :: 0 <= i < j < |s| ==> s[i] != s[j]
  }

  /** The index of the first occurrence of x in s. */
  function FirstIndex<T(==)>(s: seq<T>, x: T): (k: nat)
    requires x in s
    ensures k < |s| && s[k] == x && x !in s[..k]
  {
    if s[0] == x then 0 else 1 + FirstIndex(s[1..], x)
  }

  /** Every element of r occurs in s, and r lists them in the order of their first occurrence in s. */
  predicate InFirstSeenOrder<T(==)>(r: seq<T>, s: seq<T>) {
    (forall i :: 0 <= i < |r| ==> r[i] in s) &&
    forall i, j :: 0 <= i < j < |r| ==> FirstIndex(s, r[i]) < FirstIndex(s, r[j])
  }

  /** `Array.from(new Set(s))`: one copy of each element, first occurrences kept. */
  function Dedup<T(==)>(s: seq<T>): (r: seq<T>)
    ensures NoDuplicates(r)
    ensures forall i :: 0 <= i < |r| ==> r[i] in s
    ensures forall i :: 0 <= i < |s| ==> s[i] in r
    ensures |r| <= |s|
  {
    if s == [] then []
    else
      var init, x := s[..|s| - 1], s[|s| - 1];
      if x in init then Dedup(init) else Dedup(init) + [x]
  }

  /** Extending s past its first occurrence of x does not move that occurrence. */
  lemma {:induction false} FirstIndexOfPrefix<T>(s: seq<T>, k: nat, x: T)
    requires k <= |s| && x in s[..k]
    ensures FirstIndex(s, x) == FirstIndex(s[..k], x)
  {
    if s[0] != x {
      assert s[1..][..k - 1] == s[..k][1..];
      FirstIndexOfPrefix(s[1..], k - 1, x);
    }
  }

  /** The pool lists addresses in the order they were first seen. */
  lemma {:induction false} DedupFirstSeenOrder<T>(s: seq<T>)
    ensures InFirstSeenOrder(Dedup(s), s)
  {
    if s != [] {
      var init, x := s[..|s| - 1], s[|s| - 1];
      var d := Dedup(init);
      DedupFirstSeenOrder(init);
      forall y | y in d
        ensures FirstIndex(s, y) == FirstIndex(init, y) && FirstIndex(s, y) < |s| - 1
      {
        FirstIndexOfPrefix(s, |s| - 1, y);
      }
      if x !in init {
        assert x !in s[..|s| - 1];
        assert FirstIndex(s, x) == |s| - 1;
        assert d + [x] == Dedup(s);
      }
    }
  }

  /** Deduplication loses no element and invents none. */
  lemma SameElements<T>(s: seq<T>)
    ensures forall x :: x in Dedup(s) <==> x in s
  {
  }

  /** `.filter(address => address !== "")` */
  function DropEmpty(s: seq<string>): (r: seq<string>)
    ensures "" !in r
    ensures forall x :: x in r <==> x in s && x != ""
    ensures NoDuplicates(s) ==> NoDuplicates(r)
    ensures |r| <= |s|
  {
    if s == [] then []
    else
      assert NoDuplicates(s) ==> NoDuplicates(s[1..]) && s[0] !in s[1..];
      (if s[0] == "" then [] else [s[0]]) + DropEmpty(s[1..])
  }

  /** Filtering keeps the relative order of what it keeps. */
  lemma {:induction false} DropEmptyKeepsOrder(d: seq<string>, s: seq<string>)
    requires InFirstSeenOrder(d, s)
    ensures InFirstSeenOrder(DropEmpty(d), s)
  {
    if d != [] {
      assert InFirstSeenOrder(d[1..], s);
      DropEmptyKeepsOrder(d[1..], s);
      var rest := DropEmpty(d[1..]);
      if d[0] != "" {
        forall j | 0 <= j < |rest|
          ensures FirstIndex(s, d[0]) < FirstIndex(s, rest[j])
        {
          var k := FirstIndex(d[1..], rest[j]);
          assert d[k + 1] == rest[j];
        }
        assert DropEmpty(d) == [d[0]] + rest;
      }
    }
  }

  /** `location?.streetAddress || ""` over an array, or [] when the source is not an array. */
  function Streets(src: Option<seq<Location>>): (r: seq<string>)
    ensures |r| == if src.Some? then |src.value| else 0
    ensures forall i :: 0 <= i < |r| ==> r[i] == src.value[i].streetAddress
  {
    match src
    case None => []
    case Some(ls) => seq(|ls|, i requires 0 <= i < |ls| => ls[i].streetAddress)
  }

  /** The pool recomputed from the two upstream lists. */
  function Pool(shippingFull: Option<seq<Location>>, locations: Option<seq<Location>>): (p: seq<string>)
    ensures NoDuplicates(p)
    ensures "" !in p
    ensures |p| <= |Streets(shippingFull)| + |Streets(locations)|
  {
    DropEmpty(Dedup(Streets(shippingFull) + Streets(locations)))
  }

  /**
   * What the pool holds: no duplicate, no empty string, exactly the
   * non-empty street addresses of the two sources, listed in the order of
   * first appearance with `shippingFullLocations` ahead of `locations`.
   */
  lemma PoolSpec(shippingFull: Option<seq<Location>>, locations: Option<seq<Location>>)
    ensures var p := Pool(shippingFull, locations);
      && NoDuplicates(p)
      && "" !in p
      && (forall x :: x in p <==> x != "" && (x in Streets(shippingFull) || x in Streets(locations)))
      && InFirstSeenOrder(p, Streets(shippingFull) + Streets(locations))
  {
    var all := Streets(shippingFull) + Streets(locations);
    SameElements(all);
    DedupFirstSeenOrder(all);
    DropEmptyKeepsOrder(Dedup(all), all);
  }

  /** The non-empty street addresses of the two sources are exactly the pool's members. */
  lemma PoolMembers(shippingFull: Option<seq<Location>>, locations: Option<seq<Location>>, x: string)
    ensures x in Pool(shippingFull, locations) <==> x != "" && (x in Streets(shippingFull) || x in Streets(locations))
  {
    SameElements(Streets(shippingFull) + Streets(locations));
  }

  /**
   * `shippingFullLocations` after a confirmed draft: the existing records
   * followed by the draft, or the draft alone when there was no list.
   */
  function Appended(src: Option<seq<Location>>, draft: Location): (r: seq<Location>)
    ensures |r| == (if src.Some? then |src.value| else 0) + 1
    ensures r[|r| - 1] == draft
    ensures src.Some? ==> r[..|r| - 1] == src.value
  {
    match src
    case Some(ls) => ls + [draft]
    case None => [draft]
  }

  /** Appending a record to a source appends its street address to that source's addresses. */
  lemma StreetsAppend(shippingFull: Option<seq<Location>>, draft: Location)
    ensures Streets(Some(Appended(shippingFull, draft))) == Streets(shippingFull) + [draft.streetAddress]
  {
  }

  /**
   * A confirmed draft is appended to the pool locally and to
   * `shippingFullLocations` upstream; the next recompute from upstream holds
   * the same addresses as the appended pool, so the addition is not lost.
   */
  lemma RecomputeAfterConfirm(shippingFull: Option<seq<Location>>, locations: Option<seq<Location>>, draft: Location)
    requires draft.streetAddress != ""
    ensures var appended := Some(Appended(shippingFull, draft));
      forall x :: x in Pool(appended, locations) <==> x in Pool(shippingFull, locations) + [draft.streetAddress]
  {
    var appended := Some(Appended(shippingFull, draft));
    StreetsAppend(shippingFull, draft);
    forall x ensures x in Pool(appended, locations) <==> x in Pool(shippingFull, locations) + [draft.streetAddress] {
      PoolMembers(shippingFull, locations, x);
      PoolMembers(appended, locations, x);
    }
  }
}
