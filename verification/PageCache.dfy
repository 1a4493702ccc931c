/** The page-translation cache of ocse/cmd.c: 16 sets of 4 ways whose ages _update_age keeps, proved to be a true
    least-recently-used cache over every sequence of touches. */
module PageCache {
  import opened Common

  const PAGE_ENTRIES: nat := 16
  const PAGE_WAYS: nat := 4

  datatype Way = Way(valid: bool, entry: U64, age: nat)

  /** `addr & page_filter` and `(addr & entry_filter) >> PAGE_ADDR_BITS` for 4096-byte pages. */
  function PageOf(addr: U64): U64 { addr / 0x1000 * 0x1000 }

  function SetOf(addr: U64): (index: nat)
    ensures index < PAGE_ENTRIES
  {
    addr / 0x1000 % PAGE_ENTRIES
  }

  /** An address and its page share a set, and pages are what the sets are told apart by. */
  lemma CalcIndex(addr: U64)
    ensures PageOf(addr) <= addr < PageOf(addr) + 0x1000
    ensures PageOf(PageOf(addr)) == PageOf(addr) && SetOf(PageOf(addr)) == SetOf(addr)
  {
  }

  /** The bytes of one page share a set, and two pages exactly when their numbers agree modulo 16. */
  lemma SetsOfPages(page: nat, at: nat, other: nat, otherAt: nat)
    requires at < 4096 && otherAt < 4096 && 4096 * page + at < 0x1_0000_0000_0000_0000
    requires 4096 * other + otherAt < 0x1_0000_0000_0000_0000
    ensures SetOf(4096 * page + at) == SetOf(4096 * other + otherAt) <==> page % 16 == other % 16
    ensures PageOf(4096 * page + at) == 4096 * page
  {
    assert (4096 * page + at) / 0x1000 == page && (4096 * other + otherAt) / 0x1000 == other;
  }

  // ---------- one set ----------

  predicate Holds(w: Way, page: U64) { w.valid && w.entry == page }

  predicate Cached(row: seq<Way>, page: U64) {
    exists i :: 0 <= i < |row| && Holds(row[i], page)
  }

  /** Every other valid way grows older, the page's own starts again at 0. */
  function Aged(w: Way, page: U64): Way {
    if !w.valid then w else if w.entry == page then w.(age := 0) else w.(age := w.age + 1)
  }

  function AgedRow(row: seq<Way>, page: U64): (r: seq<Way>)
    ensures |r| == |row|
  {
    seq(|row|, i requires 0 <= i < |row| => Aged(row[i], page))
  }

  /** How many touches of the set there were since the page's own last one. */
  function Recency(h: seq<U64>, page: U64): nat {
    if h == [] || h[|h| - 1] == page then 0 else 1 + Recency(h[..|h| - 1], page)
  }

  lemma {:induction false} RecencyDistinct(h: seq<U64>, p: U64, q: U64)
    requires p in h && q in h && p != q
    ensures Recency(h, p) != Recency(h, q)
  {
    var front := h[..|h| - 1];
    if h[|h| - 1] != p && h[|h| - 1] != q {
      assert p in front && q in front;
      RecencyDistinct(front, p, q);
    }
  }

  lemma RecencyAfter(h: seq<U64>, touched: U64, page: U64)
    ensures Recency(h + [touched], page) == if touched == page then 0 else 1 + Recency(h, page)
  {
  }

  /** The set holds the most recently used pages of its history: ages are recencies, no page is held twice, and a
      page that is not held is less recent than all four that are. */
  predicate Lru(row: seq<Way>, h: seq<U64>) {
    && |row| == PAGE_WAYS
    && (forall i :: 0 <= i < |row| && row[i].valid ==> row[i].entry in h && row[i].age == Recency(h, row[i].entry))
    && (forall i, j :: 0 <= i < j < |row| && row[i].valid && row[j].valid ==> row[i].entry != row[j].entry)
    && (forall q :: q in h && !Cached(row, q) ==>
          forall i :: 0 <= i < |row| ==> row[i].valid && row[i].age < Recency(h, q))
  }

  /** Valid ages are pairwise distinct. */
  lemma AgesDistinct(row: seq<Way>, h: seq<U64>, i: nat, j: nat)
    requires Lru(row, h) && i < j < |row| && row[i].valid && row[j].valid
    ensures row[i].age != row[j].age
  {
    RecencyDistinct(h, row[i].entry, row[j].entry);
  }

  /** What _update_age leaves in a set, over the aged ways: the page where it was, in the first empty way, or in
      place of the oldest. */
  ghost predicate Touched(row: seq<Way>, row': seq<Way>, page: U64) {
    var aged := AgedRow(row, page);
    if Cached(row, page) then row' == aged
    else exists k :: 0 <= k < |row| && row' == aged[k := Way(true, page, 0)] && Replaceable(aged, k)
  }

  predicate Replaceable(aged: seq<Way>, k: nat)
    requires k < |aged|
  {
    if exists i :: 0 <= i < |aged| && !aged[i].valid then !aged[k].valid && forall i :: 0 <= i < k ==> aged[i].valid
    else forall i :: 0 <= i < |aged| ==> aged[i].age <= aged[k].age
  }

  /** A touch keeps the set least-recently-used. */
  lemma TouchKeepsLru(row: seq<Way>, row': seq<Way>, h: seq<U64>, page: U64)
    requires Lru(row, h) && Touched(row, row', page)
    ensures Lru(row', h + [page]) && Cached(row', page)
  {
    if Cached(row, page) {
      HitKeepsLru(row, h, page);
    } else {
      var k :| 0 <= k < |row| && row' == AgedRow(row, page)[k := Way(true, page, 0)]
          && Replaceable(AgedRow(row, page), k);
      assert Holds(row'[k], page);
      forall q | q in h + [page] && !Cached(row', q)
        ensures forall i :: 0 <= i < |row'| ==> row'[i].valid && row'[i].age < Recency(h + [page], q)
      {
        UncachedIsOlder(row, row', h, page, k, q);
      }
      MissKeepsAges(row, row', h, page, k);
    }
  }

  lemma HitKeepsLru(row: seq<Way>, h: seq<U64>, page: U64)
    requires Lru(row, h) && Cached(row, page)
    ensures Lru(AgedRow(row, page), h + [page]) && Cached(AgedRow(row, page), page)
  {
    var aged := AgedRow(row, page);
    SameHolds(row, page, page);
    forall i | 0 <= i < |aged| && aged[i].valid
      ensures aged[i].entry in h + [page] && aged[i].age == Recency(h + [page], aged[i].entry)
    {
      RecencyAfter(h, page, aged[i].entry);
    }
    forall q | q in h + [page] && !Cached(aged, q)
      ensures forall i :: 0 <= i < |aged| ==> aged[i].valid && aged[i].age < Recency(h + [page], q)
    {
      SameHolds(row, page, q);
      RecencyAfter(h, page, q);
    }
  }

  lemma MissKeepsAges(row: seq<Way>, row': seq<Way>, h: seq<U64>, page: U64, k: nat)
    requires Lru(row, h) && !Cached(row, page) && k < |row| && row' == AgedRow(row, page)[k := Way(true, page, 0)]
    ensures forall i :: 0 <= i < |row'| && row'[i].valid ==>
      row'[i].entry in h + [page] && row'[i].age == Recency(h + [page], row'[i].entry)
    ensures forall i, j :: 0 <= i < j < |row'| && row'[i].valid && row'[j].valid ==> row'[i].entry != row'[j].entry
  {
  }

  lemma SameHolds(row: seq<Way>, page: U64, q: U64)
    ensures Cached(AgedRow(row, page), q) <==> Cached(row, q)
  {
    var aged := AgedRow(row, page);
    assert forall i :: 0 <= i < |row| ==> (Holds(aged[i], q) <==> Holds(row[i], q));
  }

  lemma UncachedIsOlder(row: seq<Way>, row': seq<Way>, h: seq<U64>, page: U64, k: nat, q: U64)
    requires Lru(row, h) && !Cached(row, page) && k < |row|
    requires row' == AgedRow(row, page)[k := Way(true, page, 0)] && Replaceable(AgedRow(row, page), k)
    requires q in h + [page] && !Cached(row', q)
    ensures forall i :: 0 <= i < |row'| ==> row'[i].valid && row'[i].age < Recency(h + [page], q)
  {
    var aged := AgedRow(row, page);
    RecencyAfter(h, page, q);
    assert Holds(row'[k], page);
    assert q != page && q in h;
    forall i | 0 <= i < |row| && row[i].valid ensures aged[i].age == row[i].age + 1 {
      assert !Holds(row[i], page);
    }
    if Cached(row, q) {
      var j :| 0 <= j < |row| && Holds(row[j], q);
      assert j != k ==> Holds(row'[j], q);
      assert aged[k].valid;
      forall i | 0 <= i < |row'| ensures row'[i].valid && row'[i].age < Recency(h + [page], q) {
        assert aged[i].valid;
        if i < k {
          AgesDistinct(row, h, i, k);
        } else if k < i {
          AgesDistinct(row, h, k, i);
        }
      }
    }
  }

  /** What the loop of _update_age has noted after i ways: a hit, the first empty way, the first oldest way. */
  datatype Found = Found(hit: bool, empty: nat, oldest: nat, oldestAge: nat)

  function Note(f: Found, w: Way, i: nat, page: U64): Found {
    var older := w.valid && w.entry != page && w.age + 1 > f.oldestAge;
    Found(f.hit || Holds(w, page),
          if !w.valid && f.empty == PAGE_WAYS then i else f.empty,
          if older then i else f.oldest,
          if older then w.age + 1 else f.oldestAge)
  }

  function Noted(row: seq<Way>, i: nat, page: U64): (f: Found)
    requires i <= |row| && |row| == PAGE_WAYS
    ensures f.oldest < PAGE_WAYS && f.empty <= PAGE_WAYS
  {
    if i == 0 then Found(false, PAGE_WAYS, 0, 0) else Note(Noted(row, i - 1, page), row[i - 1], i - 1, page)
  }

  /** What was noted about the ways seen so far. */
  lemma {:induction false} NotedMeans(row: seq<Way>, i: nat, page: U64)
    requires i <= |row| && |row| == PAGE_WAYS
    ensures var f := Noted(row, i, page);
      && (f.hit <==> exists j :: 0 <= j < i && Holds(row[j], page))
      && (f.empty < PAGE_WAYS ==> f.empty < i && !row[f.empty].valid && forall j :: 0 <= j < f.empty ==> row[j].valid)
      && (f.empty == PAGE_WAYS ==> forall j :: 0 <= j < i ==> row[j].valid)
      && (forall j :: 0 <= j < i && row[j].valid && row[j].entry != page ==> row[j].age + 1 <= f.oldestAge)
      && (f.oldestAge > 0 ==> f.oldest < i && row[f.oldest].valid && row[f.oldest].entry != page
                              && row[f.oldest].age + 1 == f.oldestAge)
  {
    if i > 0 {
      NotedMeans(row, i - 1, page);
    }
  }

  lemma NotedReplaceable(row: seq<Way>, page: U64)
    requires |row| == PAGE_WAYS
    ensures var f := Noted(row, PAGE_WAYS, page);
      && f.hit == Cached(row, page)
      && (!f.hit ==> Replaceable(AgedRow(row, page), if f.empty < PAGE_WAYS then f.empty else f.oldest))
  {
    NotedMeans(row, PAGE_WAYS, page);
    var f := Noted(row, PAGE_WAYS, page);
    hide Noted;
    if !f.hit {
      assert forall j :: 0 <= j < PAGE_WAYS ==> !Holds(row[j], page);
    }
  }

  // ---------- the whole cache ----------

  /** The pages touched so far that belong to one set. */
  function SetHistory(h: seq<U64>, index: nat): seq<U64> {
    if h == [] then []
    else SetHistory(h[..|h| - 1], index) + (if SetOf(h[|h| - 1]) == index then [PageOf(h[|h| - 1])] else [])
  }

  lemma HistoryGrows(h: seq<U64>, addr: U64, index: nat)
    ensures SetOf(addr) == index ==> SetHistory(h + [addr], index) == SetHistory(h, index) + [PageOf(addr)]
    ensures SetOf(addr) != index ==> SetHistory(h + [addr], index) == SetHistory(h, index)
  {
  }

  lemma AgedNext(row: seq<Way>, i: nat, page: U64)
    requires i < |row|
    ensures var aged := AgedRow(row, page); var mix := aged[..i] + row[i..];
      mix[i] == row[i] && mix[i := Aged(row[i], page)] == aged[..i + 1] + row[i + 1..]
  {
  }

  class Pages {
    const entry: array2<U64>
    const age: array2<nat>
    const valid: array2<bool>
    ghost var touches: seq<U64>

    ghost predicate Shape()
    {
      && entry.Length0 == age.Length0 == valid.Length0 == PAGE_ENTRIES
      && entry.Length1 == age.Length1 == valid.Length1 == PAGE_WAYS
    }

    ghost function Row(index: nat): (r: seq<Way>)
      requires Shape() && index < PAGE_ENTRIES
      reads entry, age, valid
      ensures |r| == PAGE_WAYS
    {
      seq(PAGE_WAYS, i requires 0 <= i < PAGE_WAYS && Shape() reads entry, age, valid =>
        Way(valid[index, i], entry[index, i], age[index, i]))
    }

    /** Every set is least-recently-used with respect to its own touches. */
    ghost predicate Valid()
      reads this, entry, age, valid
    {
      Shape() && forall s :: 0 <= s < PAGE_ENTRIES ==> Lru(Row(s), SetHistory(touches, s))
    }

    /** The initialisation in cmd_init: nothing is valid. */
    constructor ()
      ensures Valid() && touches == [] && fresh(entry) && fresh(age) && fresh(valid)
    {
      entry := new U64[PAGE_ENTRIES, PAGE_WAYS]((i, j) => 0);
      age := new nat[PAGE_ENTRIES, PAGE_WAYS]((i, j) => 0);
      valid := new bool[PAGE_ENTRIES, PAGE_WAYS]((i, j) => false);
      touches := [];
    }

    /** The ages and the notes after one more way. */
    method AgeWay(index: nat, i: nat, page: U64, f: Found) returns (g: Found)
      requires Shape() && index < PAGE_ENTRIES && i < PAGE_WAYS
      modifies age
      ensures g == Note(f, old(Row(index))[i], i, page)
      ensures Row(index) == old(Row(index))[i := Aged(old(Row(index))[i], page)]
      ensures forall s :: 0 <= s < PAGE_ENTRIES && s != index ==> Row(s) == old(Row(s))
    {
      ghost var w := Row(index)[i];
      g := f;
      if valid[index, i] && entry[index, i] != page {
        age[index, i] := age[index, i] + 1;
        if age[index, i] > g.oldestAge {
          g := g.(oldestAge := age[index, i], oldest := i);
        }
      }
      if !valid[index, i] && g.empty == PAGE_WAYS {
        g := g.(empty := i);
      }
      if valid[index, i] && entry[index, i] == page {
        age[index, i] := 0;
        g := g.(hit := true);
      }
    }

    /** The loop of _update_age. */
    method AgeSet(index: nat, page: U64) returns (f: Found)
      requires Shape() && index < PAGE_ENTRIES
      modifies age
      ensures f == Noted(old(Row(index)), PAGE_WAYS, page)
      ensures Row(index) == AgedRow(old(Row(index)), page)
      ensures forall s :: 0 <= s < PAGE_ENTRIES && s != index ==> Row(s) == old(Row(s))
    {
      hide Row, Note, Aged, AgedRow;
      ghost var before := Row(index);
      ghost var aged := AgedRow(before, page);
      f := Found(false, PAGE_WAYS, 0, 0);
      for i := 0 to PAGE_WAYS
        invariant f == Noted(before, i, page) && Row(index) == aged[..i] + before[i..]
        invariant forall s :: 0 <= s < PAGE_ENTRIES && s != index ==> Row(s) == old(Row(s))
      {
        f := AgeWay(index, i, page, f);
        AgedNext(before, i, page);
      }
      assert aged[..PAGE_WAYS] + before[PAGE_WAYS..] == aged;
    }

    method Replace(index: nat, k: nat, page: U64)
      requires Shape() && index < PAGE_ENTRIES && k < PAGE_WAYS
      modifies entry, age, valid
      ensures Row(index) == old(Row(index))[k := Way(true, page, 0)]
      ensures forall s :: 0 <= s < PAGE_ENTRIES && s != index ==> Row(s) == old(Row(s))
    {
      entry[index, k] := page;
      valid[index, k] := true;
      age[index, k] := 0;
    }

    /** _update_age: the set of the address is touched, its victim chosen as the source chooses it, and every set
        stays least-recently-used. */
    method UpdateAge(addr: U64)
      requires Valid()
      modifies this`touches, entry, age, valid
      ensures Valid() && touches == old(touches) + [addr]
      ensures Touched(old(Row(SetOf(addr))), Row(SetOf(addr)), PageOf(addr))
      ensures Cached(Row(SetOf(addr)), PageOf(addr))
      ensures forall s :: 0 <= s < PAGE_ENTRIES && s != SetOf(addr) ==> Row(s) == old(Row(s))
    {
      hide Lru, Replaceable, AgedRow, Noted, Row, Cached, PageOf, SetOf, SetHistory;
      var page, index := PageOf(addr), SetOf(addr);
      ghost var before := Row(index);
      var f := AgeSet(index, page);
      NotedReplaceable(before, page);
      if !f.hit {
        Replace(index, if f.empty < PAGE_WAYS then f.empty else f.oldest, page);
      }
      TouchKeepsLru(before, Row(index), SetHistory(touches, index), page);
      touches := touches + [addr];
      forall s | 0 <= s < PAGE_ENTRIES ensures Lru(Row(s), SetHistory(touches, s)) {
        HistoryGrows(old(touches), addr, s);
      }
    }
  }
}
