/** The format catalog that `get_video_info` builds from the extractor's list
    of format records: one entry per (height, container) pair among the
    video-capable records, sorted tallest first, then at most one best-audio
    entry at the end. */
module Catalog {
  import opened Wrappers
  import opened Text

  /** One record of the extractor's `formats` list; an absent key and a JSON
      null are both `None`. Bitrates are reals (the extractor reports floats). */
  datatype RawFormat = RawFormat(
    formatId: string,
    height: Option<int>,
    ext: Option<string>,
    vcodec: Option<string>,
    acodec: Option<string>,
    tbr: Option<real>,
    abr: Option<real>)

  /** Python's `value or default` on an optional string: `None` and `""` are falsy. */
  function StrOr(o: Option<string>, default: string): string {
    if Truthy(o) then o.value else default
  }

  /** Python's `value or 0` on an optional bitrate. */
  function RateOr0(o: Option<real>): real {
    if o.Some? then o.value else 0.0
  }

  function Tbr(f: RawFormat): real { RateOr0(f.tbr) }

  function Abr(f: RawFormat): real { RateOr0(f.abr) }

  /** A record enters the video catalog when its height is truthy (present and
      non-zero) and its video codec is not the "none" sentinel. */
  predicate IsVideo(f: RawFormat) {
    f.height.Some? && f.height.value != 0 && f.vcodec != Some("none")
  }

  /** An audio candidate: video codec exactly "none", audio codec present and
      not "none". */
  predicate IsAudio(f: RawFormat) {
    f.vcodec == Some("none") && f.acodec.Some? && f.acodec.value != "none"
  }

  /** The grouping key `(height, ext)`, a missing or empty ext read as "unknown". */
  datatype Key = Key(height: int, ext: string)

  function KeyOf(f: RawFormat): Key {
    Key(f.height.GetOr(0), StrOr(f.ext, "unknown"))
  }

  /** One slot of the `grouped` dictionary, which keeps insertion order. */
  datatype Group = Group(key: Key, rec: RawFormat)

  // ---------------------------------------------------------------------
  // Grouping
  // ---------------------------------------------------------------------

  /** Dictionary lookup: the slot holding key `k`, or `|gs|` when there is none. */
  function Find(gs: seq<Group>, k: Key): (i: nat)
    ensures i <= |gs|
    ensures i < |gs| ==> gs[i].key == k
    ensures forall j :: 0 <= j < i ==> gs[j].key != k
  {
    if gs == [] then 0 else if gs[0].key == k then 0 else 1 + Find(gs[1..], k)
  }

  /** One pass of the grouping loop over record `f`. */
  function Step(gs: seq<Group>, f: RawFormat): seq<Group> {
    if !IsVideo(f) then gs
    else
      var k := KeyOf(f);
      var i := Find(gs, k);
      if i == |gs| then gs + [Group(k, f)]
      else if Tbr(f) > Tbr(gs[i].rec) then gs[i := Group(k, f)]
      else gs
  }

  /** The dictionary after the grouping loop has seen all of `fs`. */
  function Grouped(fs: seq<RawFormat>): seq<Group> {
    if fs == [] then [] else Step(Grouped(fs[..|fs| - 1]), fs[|fs| - 1])
  }

  /** Record `j` is the first of the video records with key `k` whose `tbr`
      (missing as 0) is the largest. */
  ghost predicate FirstMaxTbr(fs: seq<RawFormat>, k: Key, j: int) {
    && 0 <= j < |fs| && IsVideo(fs[j]) && KeyOf(fs[j]) == k
    && (forall m :: 0 <= m < |fs| && IsVideo(fs[m]) && KeyOf(fs[m]) == k ==> Tbr(fs[m]) <= Tbr(fs[j]))
    && (forall m :: 0 <= m < j && IsVideo(fs[m]) && KeyOf(fs[m]) == k ==> Tbr(fs[m]) < Tbr(fs[j]))
  }

  /** At most one record is the first maximum of its key. */
  lemma FirstMaxTbrUnique(fs: seq<RawFormat>, k: Key, j1: int, j2: int)
    requires FirstMaxTbr(fs, k, j1) && FirstMaxTbr(fs, k, j2)
    ensures j1 == j2
  {
  }

  /** Reference definition of the record a key keeps: the position of the
      first video record with key `k` of largest `tbr`, or -1 if `k` has no
      video record. */
  ghost function BestIndex(fs: seq<RawFormat>, k: Key): (b: int)
    ensures -1 <= b < |fs|
    ensures b >= 0 ==> FirstMaxTbr(fs, k, b)
    ensures b < 0 <==> forall m :: 0 <= m < |fs| ==> !(IsVideo(fs[m]) && KeyOf(fs[m]) == k)
  {
    if fs == [] then -1
    else
      var p := fs[..|fs| - 1];
      var f := fs[|fs| - 1];
      var b := BestIndex(p, k);
      assert forall m :: 0 <= m < |p| ==> fs[m] == p[m];
      if IsVideo(f) && KeyOf(f) == k && (b < 0 || Tbr(f) > Tbr(p[b])) then |fs| - 1 else b
  }

  function KeysOf(gs: seq<Group>): seq<Key> {
    seq(|gs|, i requires 0 <= i < |gs| => gs[i].key)
  }

  ghost predicate DistinctKeys(gs: seq<Group>) {
    forall i, i' :: 0 <= i < i' < |gs| ==> gs[i].key != gs[i'].key
  }

  /** `gs` is a correct grouping of `fs`: one slot per key, each slot holding
      the first record of maximal `tbr` for its key, and every video record's
      key has a slot. */
  ghost predicate Grouping(fs: seq<RawFormat>, gs: seq<Group>) {
    && DistinctKeys(gs)
    && (forall i :: 0 <= i < |gs| ==> 0 <= BestIndex(fs, gs[i].key) && gs[i].rec == fs[BestIndex(fs, gs[i].key)])
    && (forall m :: 0 <= m < |fs| && IsVideo(fs[m]) ==> KeyOf(fs[m]) in KeysOf(gs))
  }

  /** The loop of `get_video_info` that fills the `grouped` dictionary. */
  method GroupVideo(formats: seq<RawFormat>) returns (grouped: seq<Group>)
    ensures grouped == Grouped(formats)
    ensures Grouping(formats, grouped)
  {
    grouped := [];
    for n := 0 to |formats|
      invariant grouped == Grouped(formats[..n])
    {
      var f := formats[n];
      assert formats[..n + 1][..n] == formats[..n];
      if f.height.None? || f.height.value == 0 {
        continue;
      }
      if f.vcodec == Some("none") {
        continue;
      }
      var key := KeyOf(f);
      var i := Find(grouped, key);
      if i == |grouped| {
        grouped := grouped + [Group(key, f)];
      } else {
        var existingTbr := Tbr(grouped[i].rec);
        var candidateTbr := Tbr(f);
        if candidateTbr > existingTbr {
          grouped := grouped[i := Group(key, f)];
        }
      }
    }
    assert formats[..|formats|] == formats;
    GroupedCorrect(formats);
  }

  lemma FindAbsent(gs: seq<Group>, k: Key)
    ensures Find(gs, k) == |gs| <==> k !in KeysOf(gs)
  {
    if Find(gs, k) < |gs| {
      assert KeysOf(gs)[Find(gs, k)] == k;
    }
    if k in KeysOf(gs) {
      var t :| 0 <= t < |gs| && KeysOf(gs)[t] == k;
      assert gs[t].key == k;
    }
  }

  /** A last record that is not a video record of key `k` leaves the
      reference choice for `k` as it was before it. */
  lemma BestIndexOther(fs: seq<RawFormat>, k: Key)
    requires fs != [] && !(IsVideo(fs[|fs| - 1]) && KeyOf(fs[|fs| - 1]) == k)
    ensures BestIndex(fs, k) == BestIndex(fs[..|fs| - 1], k)
  {
  }

  /** A last record that is a video record becomes the choice for its key
      exactly when it beats the choice made before it. */
  lemma BestIndexSame(fs: seq<RawFormat>)
    requires fs != [] && IsVideo(fs[|fs| - 1])
    ensures BestIndex(fs[..|fs| - 1], KeyOf(fs[|fs| - 1])) < 0
              || Tbr(fs[|fs| - 1]) > Tbr(fs[BestIndex(fs[..|fs| - 1], KeyOf(fs[|fs| - 1]))]) ==>
            BestIndex(fs, KeyOf(fs[|fs| - 1])) == |fs| - 1
    ensures !(BestIndex(fs[..|fs| - 1], KeyOf(fs[|fs| - 1])) < 0
              || Tbr(fs[|fs| - 1]) > Tbr(fs[BestIndex(fs[..|fs| - 1], KeyOf(fs[|fs| - 1]))])) ==>
            BestIndex(fs, KeyOf(fs[|fs| - 1])) == BestIndex(fs[..|fs| - 1], KeyOf(fs[|fs| - 1]))
  {
  }

  /** Slots whose key is not that of a last video record keep their
      reference choice. */
  lemma OtherSlotsKeep(fs: seq<RawFormat>, gs: seq<Group>)
    requires fs != [] && Grouping(fs[..|fs| - 1], gs)
    ensures forall i :: 0 <= i < |gs| && !(IsVideo(fs[|fs| - 1]) && gs[i].key == KeyOf(fs[|fs| - 1])) ==>
      0 <= BestIndex(fs, gs[i].key) && gs[i].rec == fs[BestIndex(fs, gs[i].key)]
  {
    var f := fs[|fs| - 1];
    forall i | 0 <= i < |gs| && !(IsVideo(f) && gs[i].key == KeyOf(f))
      ensures 0 <= BestIndex(fs, gs[i].key) && gs[i].rec == fs[BestIndex(fs, gs[i].key)]
    {
      BestIndexOther(fs, gs[i].key);
    }
  }

  /** A record that is not a video record leaves the grouping as it is. */
  lemma StepSkips(fs: seq<RawFormat>, gs: seq<Group>)
    requires fs != [] && Grouping(fs[..|fs| - 1], gs) && !IsVideo(fs[|fs| - 1])
    ensures Grouping(fs, Step(gs, fs[|fs| - 1]))
  {
    OtherSlotsKeep(fs, gs);
    assert forall m :: 0 <= m < |fs| - 1 ==> fs[..|fs| - 1][m] == fs[m];
  }

  /** A video record whose key has no slot yet is the first of its key, so
      it is the reference choice for that key. */
  lemma NewKeyChosen(fs: seq<RawFormat>, gs: seq<Group>)
    requires fs != [] && Grouping(fs[..|fs| - 1], gs)
    requires IsVideo(fs[|fs| - 1]) && KeyOf(fs[|fs| - 1]) !in KeysOf(gs)
    ensures BestIndex(fs, KeyOf(fs[|fs| - 1])) == |fs| - 1
  {
    var p := fs[..|fs| - 1];
    var k := KeyOf(fs[|fs| - 1]);
    forall m | 0 <= m < |p| ensures !(IsVideo(p[m]) && KeyOf(p[m]) == k) {
      if IsVideo(p[m]) { assert KeyOf(p[m]) in KeysOf(gs); }
    }
    BestIndexSame(fs);
  }

  /** A video record with a new key opens a slot at the end. */
  lemma StepAdds(fs: seq<RawFormat>, gs: seq<Group>, gs': seq<Group>)
    requires fs != [] && Grouping(fs[..|fs| - 1], gs)
    requires IsVideo(fs[|fs| - 1]) && KeyOf(fs[|fs| - 1]) !in KeysOf(gs)
    requires |gs'| == |gs| + 1 && gs'[..|gs|] == gs && gs'[|gs|] == Group(KeyOf(fs[|fs| - 1]), fs[|fs| - 1])
    ensures Grouping(fs, gs')
  {
    var f := fs[|fs| - 1];
    var k := KeyOf(f);
    OtherSlotsKeep(fs, gs);
    NewKeyChosen(fs, gs);
    assert forall i :: 0 <= i < |gs| ==> gs'[i] == gs[i];
    forall i | 0 <= i < |gs| ensures gs[i].key != k {
      assert KeysOf(gs)[i] == gs[i].key;
    }
    assert DistinctKeys(gs');
    assert KeysOf(gs') == KeysOf(gs) + [k];
    forall m | 0 <= m < |fs| && IsVideo(fs[m]) ensures KeyOf(fs[m]) in KeysOf(gs') {
      if m < |fs| - 1 { assert fs[m] == fs[..|fs| - 1][m]; }
    }
  }

  /** A video record with a known key replaces the slot's record exactly when
      its `tbr` is strictly larger. */
  lemma StepUpdates(fs: seq<RawFormat>, gs: seq<Group>, i0: nat)
    requires fs != [] && Grouping(fs[..|fs| - 1], gs) && IsVideo(fs[|fs| - 1])
    requires i0 < |gs| && gs[i0].key == KeyOf(fs[|fs| - 1])
    ensures Grouping(fs, gs[i0 := Group(gs[i0].key,
      if Tbr(fs[|fs| - 1]) > Tbr(gs[i0].rec) then fs[|fs| - 1] else gs[i0].rec)])
  {
    var p := fs[..|fs| - 1];
    var f := fs[|fs| - 1];
    var k := KeyOf(f);
    var gs' := gs[i0 := Group(k, if Tbr(f) > Tbr(gs[i0].rec) then f else gs[i0].rec)];
    OtherSlotsKeep(fs, gs);
    BestIndexSame(fs);
    var b := BestIndex(p, k);
    assert 0 <= b && gs[i0].rec == p[b];
    assert p[b] == fs[b];
    assert gs'[i0].rec == fs[BestIndex(fs, k)];
    assert KeysOf(gs') == KeysOf(gs);
    forall m | 0 <= m < |fs| && IsVideo(fs[m]) ensures KeyOf(fs[m]) in KeysOf(gs') {
      if m < |p| { assert fs[m] == p[m]; } else { assert KeysOf(gs)[i0] == k; }
    }
    forall i | 0 <= i < |gs'|
      ensures 0 <= BestIndex(fs, gs'[i].key) && gs'[i].rec == fs[BestIndex(fs, gs'[i].key)]
    {
      if i != i0 { assert gs'[i] == gs[i] && gs[i].key != k; }
    }
  }

  /** One pass of the loop keeps the grouping correct. */
  lemma StepCorrect(fs: seq<RawFormat>, gs: seq<Group>)
    requires fs != [] && Grouping(fs[..|fs| - 1], gs)
    ensures Grouping(fs, Step(gs, fs[|fs| - 1]))
  {
    var f := fs[|fs| - 1];
    var k := KeyOf(f);
    if !IsVideo(f) {
      StepSkips(fs, gs);
    } else {
      FindAbsent(gs, k);
      var i := Find(gs, k);
      if i == |gs| {
        StepAdds(fs, gs, Step(gs, f));
      } else {
        var next := gs[i := Group(gs[i].key, if Tbr(f) > Tbr(gs[i].rec) then f else gs[i].rec)];
        StepUpdates(fs, gs, i);
        assert Step(gs, f) == next;
      }
    }
  }

  /** The whole grouping loop builds a correct grouping. */
  lemma {:induction false} GroupedCorrect(fs: seq<RawFormat>)
    ensures Grouping(fs, Grouped(fs))
  {
    if fs != [] {
      GroupedCorrect(fs[..|fs| - 1]);
      StepCorrect(fs, Grouped(fs[..|fs| - 1]));
    }
  }

  // ---------------------------------------------------------------------
  // Sorting by (-height, ext)
  // ---------------------------------------------------------------------

  /** Key `a` sorts before key `b`: taller first, then ext in string order. */
  predicate Before(a: Key, b: Key) {
    a.height > b.height || (a.height == b.height && LexLess(a.ext, b.ext))
  }

  lemma BeforeIrreflexive(a: Key)
    ensures !Before(a, a)
  {
    LexLessIrreflexive(a.ext);
  }

  lemma BeforeTransitive(a: Key, b: Key, c: Key)
    requires Before(a, b) && Before(b, c)
    ensures Before(a, c)
  {
    if a.height == b.height == c.height { LexLessTransitive(a.ext, b.ext, c.ext); }
  }

  lemma BeforeTotal(a: Key, b: Key)
    requires a != b
    ensures Before(a, b) || Before(b, a)
  {
    if a.height == b.height { LexLessTotal(a.ext, b.ext); }
  }

  ghost predicate SortedKeys(gs: seq<Group>) {
    forall i, j :: 0 <= i < j < |gs| ==> Before(gs[i].key, gs[j].key)
  }

  /** Every group of `s` sorts after key `k`. */
  ghost predicate AllAfter(k: Key, s: seq<Group>) {
    forall t :: 0 <= t < |s| ==> Before(k, s[t].key)
  }

  /** A list with the same elements as `s` also sorts after `k`. */
  lemma AllAfterPerm(k: Key, s: seq<Group>, r: seq<Group>)
    requires AllAfter(k, s) && multiset(s) == multiset(r)
    ensures AllAfter(k, r)
  {
    forall j | 0 <= j < |r| ensures Before(k, r[j].key) {
      assert r[j] in multiset(s);
      var t :| 0 <= t < |s| && s[t] == r[j];
    }
  }

  /** A sorted list stays sorted when a group that sorts before all of it is
      put in front. */
  lemma ConsSorted(h: Group, s: seq<Group>)
    requires SortedKeys(s) && AllAfter(h.key, s)
    ensures SortedKeys([h] + s)
  {
    var r := [h] + s;
    forall i, j | 0 <= i < j < |r| ensures Before(r[i].key, r[j].key) {
      if i > 0 { assert r[i] == s[i - 1] && r[j] == s[j - 1]; } else { assert r[j] == s[j - 1]; }
    }
  }

  /** Insert `g` into a sorted list of groups whose keys differ from its own. */
  function Insert(g: Group, gs: seq<Group>): (r: seq<Group>)
    requires SortedKeys(gs)
    requires forall i :: 0 <= i < |gs| ==> gs[i].key != g.key
    ensures multiset(r) == multiset(gs) + multiset{g}
    ensures SortedKeys(r)
  {
    if gs == [] then [g]
    else if Before(g.key, gs[0].key) then
      assert AllAfter(g.key, gs) by {
        forall j | 0 <= j < |gs| ensures Before(g.key, gs[j].key) {
          if j > 0 { BeforeTransitive(g.key, gs[0].key, gs[j].key); }
        }
      }
      ConsSorted(g, gs);
      assert multiset([g] + gs) == multiset(gs) + multiset{g};
      [g] + gs
    else
      var h := gs[0];
      var tl := gs[1..];
      assert gs == [h] + tl;
      var rest := Insert(g, tl);
      InsertBehind(g, h, tl, rest);
      [h] + rest
  }

  /** When `g` sorts after the head `h`, the head stays in front of the
      list `g` was inserted into. */
  lemma InsertBehind(g: Group, h: Group, tl: seq<Group>, rest: seq<Group>)
    requires SortedKeys([h] + tl) && !Before(g.key, h.key) && g.key != h.key
    requires SortedKeys(rest) && multiset(rest) == multiset(tl) + multiset{g}
    ensures SortedKeys([h] + rest)
  {
    BeforeTotal(g.key, h.key);
    assert AllAfter(h.key, tl + [g]) by {
      forall j | 0 <= j < |tl + [g]| ensures Before(h.key, (tl + [g])[j].key) {
        var r := [h] + tl;
        if j < |tl| {
          assert r[0] == h && r[j + 1] == tl[j] && (tl + [g])[j] == tl[j];
          assert Before(r[0].key, r[j + 1].key);
        } else {
          assert (tl + [g])[j] == g;
        }
      }
    }
    assert multiset(tl + [g]) == multiset(rest);
    AllAfterPerm(h.key, tl + [g], rest);
    ConsSorted(h, rest);
  }

  /** A key that no group of `s` has is not in any reordering of `s`. */
  lemma KeyAbsentPerm(k: Key, s: seq<Group>, r: seq<Group>)
    requires forall i :: 0 <= i < |s| ==> s[i].key != k
    requires multiset(s) == multiset(r)
    ensures forall i :: 0 <= i < |r| ==> r[i].key != k
  {
    forall i | 0 <= i < |r| ensures r[i].key != k {
      assert r[i] in multiset(s);
      var t :| 0 <= t < |s| && s[t] == r[i];
    }
  }

  /** Sort groups by (-height, ext); stands for Python's `list.sort`. */
  function Sort(gs: seq<Group>): (r: seq<Group>)
    requires DistinctKeys(gs)
    ensures multiset(r) == multiset(gs)
    ensures SortedKeys(r)
  {
    if gs == [] then []
    else
      var h := gs[0];
      var tl := gs[1..];
      assert gs == [h] + tl;
      assert DistinctKeys(tl);
      assert forall i :: 0 <= i < |tl| ==> tl[i].key != h.key;
      var rest := Sort(tl);
      KeyAbsentPerm(h.key, tl, rest);
      Insert(h, rest)
  }

  /** Two non-empty sorted lists with the same elements start alike. */
  lemma SameHead(a: seq<Group>, b: seq<Group>)
    requires SortedKeys(a) && SortedKeys(b) && a != []
    requires multiset(a) == multiset(b)
    ensures b != [] && a[0] == b[0]
  {
    assert a[0] in multiset(b) && b != [];
    assert b[0] in multiset(a);
    if a[0] != b[0] {
      SortedFirst(a, b[0]);
      SortedFirst(b, a[0]);
      BeforeTransitive(a[0].key, b[0].key, a[0].key);
      BeforeIrreflexive(a[0].key);
      assert false;
    }
  }

  /** Two lists sorted strictly by key with the same elements are equal: any
      correct sort of the groups, Python's included, yields this one list. */
  lemma {:induction false} SortedUnique(a: seq<Group>, b: seq<Group>)
    requires SortedKeys(a) && SortedKeys(b)
    requires multiset(a) == multiset(b)
    ensures a == b
  {
    if a != [] {
      SameHead(a, b);
      assert a == [a[0]] + a[1..] && b == [b[0]] + b[1..];
      assert multiset(a[1..]) == multiset(a) - multiset{a[0]};
      assert multiset(b[1..]) == multiset(b) - multiset{b[0]};
      SortedTail(a);
      SortedTail(b);
      SortedUnique(a[1..], b[1..]);
    }
  }

  lemma SortedTail(a: seq<Group>)
    requires SortedKeys(a) && a != []
    ensures SortedKeys(a[1..])
  {
    forall i, j | 0 <= i < j < |a[1..]| ensures Before(a[1..][i].key, a[1..][j].key) {
      assert a[1..][i] == a[i + 1] && a[1..][j] == a[j + 1];
    }
  }

  /** The head of a sorted list sorts before each of its other elements. */
  lemma SortedFirst(a: seq<Group>, x: Group)
    requires SortedKeys(a) && x in multiset(a)
    ensures a != [] && (x == a[0] || Before(a[0].key, x.key))
  {
    var t :| 0 <= t < |a| && a[t] == x;
  }

  /** A sorted list of groups has distinct keys. */
  lemma SortedDistinct(gs: seq<Group>)
    requires SortedKeys(gs)
    ensures DistinctKeys(gs)
  {
    forall i, i' | 0 <= i < i' < |gs| ensures gs[i].key != gs[i'].key {
      BeforeIrreflexive(gs[i].key);
    }
  }

  /** Reordering a correct grouping keeps it correct. */
  lemma GroupingPermutation(fs: seq<RawFormat>, gs: seq<Group>, r: seq<Group>)
    requires Grouping(fs, gs) && DistinctKeys(r)
    requires multiset(gs) == multiset(r)
    ensures Grouping(fs, r)
  {
    SlotsPermutation(fs, gs, r);
    KeysPermutation(fs, gs, r);
  }

  lemma SlotsPermutation(fs: seq<RawFormat>, gs: seq<Group>, r: seq<Group>)
    requires forall i :: 0 <= i < |gs| ==> 0 <= BestIndex(fs, gs[i].key) && gs[i].rec == fs[BestIndex(fs, gs[i].key)]
    requires multiset(gs) == multiset(r)
    ensures forall i :: 0 <= i < |r| ==> 0 <= BestIndex(fs, r[i].key) && r[i].rec == fs[BestIndex(fs, r[i].key)]
  {
    forall i | 0 <= i < |r|
      ensures 0 <= BestIndex(fs, r[i].key) && r[i].rec == fs[BestIndex(fs, r[i].key)]
    {
      assert r[i] in multiset(gs);
      var t :| 0 <= t < |gs| && gs[t] == r[i];
    }
  }

  lemma KeysPermutation(fs: seq<RawFormat>, gs: seq<Group>, r: seq<Group>)
    requires forall m :: 0 <= m < |fs| && IsVideo(fs[m]) ==> KeyOf(fs[m]) in KeysOf(gs)
    requires multiset(gs) == multiset(r)
    ensures forall m :: 0 <= m < |fs| && IsVideo(fs[m]) ==> KeyOf(fs[m]) in KeysOf(r)
  {
    forall m | 0 <= m < |fs| && IsVideo(fs[m])
      ensures KeyOf(fs[m]) in KeysOf(r)
    {
      var t :| 0 <= t < |gs| && KeysOf(gs)[t] == KeyOf(fs[m]);
      assert gs[t] in multiset(r);
      var i :| 0 <= i < |r| && r[i] == gs[t];
      assert KeysOf(r)[i] == KeyOf(fs[m]);
    }
  }

  /** The video part of the catalog: one group per key, first maximal `tbr`
      per key, every video key present, strictly ordered by (-height, ext). */
  function VideoGroups(fs: seq<RawFormat>): (r: seq<Group>)
    ensures SortedKeys(r)
    ensures Grouping(fs, r)
  {
    GroupedCorrect(fs);
    var r := Sort(Grouped(fs));
    SortedDistinct(r);
    GroupingPermutation(fs, Grouped(fs), r);
    r
  }

  // ---------------------------------------------------------------------
  // Best audio
  // ---------------------------------------------------------------------

  /** The list comprehension of audio candidates, in input order: every
      element qualifies, every qualifying record is present, and
      `AudioPositions` says where each one comes from. */
  function AudioCandidates(fs: seq<RawFormat>): (cs: seq<RawFormat>)
    ensures forall i :: 0 <= i < |cs| ==> IsAudio(cs[i]) && cs[i] in fs
    ensures forall m :: 0 <= m < |fs| && IsAudio(fs[m]) ==> fs[m] in cs
    ensures cs == [] <==> forall m :: 0 <= m < |fs| ==> !IsAudio(fs[m])
  {
    if fs == [] then []
    else
      var p := fs[..|fs| - 1];
      var f := fs[|fs| - 1];
      var cs := AudioCandidates(p);
      assert forall m :: 0 <= m < |p| ==> fs[m] == p[m];
      assert forall x :: x in p ==> x in fs;
      cs + (if IsAudio(f) then [f] else [])
  }

  /** The comprehension keeps or drops each record on its own and keeps
      the input order: candidates of a concatenation are the candidates of
      each part, in turn, and a single record is kept iff it is audio. */
  lemma {:induction false} AudioCandidatesAppend(a: seq<RawFormat>, b: seq<RawFormat>)
    ensures AudioCandidates(a + b) == AudioCandidates(a) + AudioCandidates(b)
    decreases |b|
  {
    if b == [] {
      assert a + b == a;
    } else {
      var b' := b[..|b| - 1];
      var f := b[|b| - 1];
      assert (a + b)[..|a + b| - 1] == a + b';
      assert (a + b)[|a + b| - 1] == f;
      var kept := if IsAudio(f) then [f] else [];
      assert AudioCandidates(a + b) == AudioCandidates(a + b') + kept;
      AudioCandidatesAppend(a, b');
      assert AudioCandidates(b) == AudioCandidates(b') + kept;
      SeqAssoc(AudioCandidates(a), AudioCandidates(b'), kept);
    }
  }

  lemma SeqAssoc<T>(x: seq<T>, y: seq<T>, z: seq<T>)
    ensures x + y + z == x + (y + z)
  {
  }

  lemma AudioCandidatesOne(f: RawFormat)
    ensures AudioCandidates([f]) == if IsAudio(f) then [f] else []
  {
    assert [f][..0] == [];
  }

  /** The sort key `(abr or 0, tbr or 0)` of `a` is smaller than that of `b`
      in Python's tuple order. */
  predicate AudioBelow(a: RawFormat, b: RawFormat) {
    Abr(a) < Abr(b) || (Abr(a) == Abr(b) && Tbr(a) < Tbr(b))
  }

  /** Python's `max(cs, key=...)`: scans left to right and replaces the best
      only on a strictly larger key, so it returns the first maximal element. */
  function MaxIndex(cs: seq<RawFormat>): (k: nat)
    requires |cs| > 0
    ensures k < |cs|
    ensures forall i :: 0 <= i < |cs| ==> !AudioBelow(cs[k], cs[i])
    ensures forall i :: 0 <= i < k ==> AudioBelow(cs[i], cs[k])
  {
    if |cs| == 1 then 0
    else
      var b := MaxIndex(cs[..|cs| - 1]);
      assert forall i :: 0 <= i < |cs| - 1 ==> cs[..|cs| - 1][i] == cs[i];
      if AudioBelow(cs[b], cs[|cs| - 1]) then |cs| - 1 else b
  }

  /** Record `j` is the first audio candidate of maximal `(abr, tbr)`. */
  ghost predicate FirstMaxAudio(fs: seq<RawFormat>, j: int) {
    && 0 <= j < |fs| && IsAudio(fs[j])
    && (forall m :: 0 <= m < |fs| && IsAudio(fs[m]) ==> !AudioBelow(fs[j], fs[m]))
    && (forall m :: 0 <= m < j && IsAudio(fs[m]) ==> AudioBelow(fs[m], fs[j]))
  }

  /** Reference definition of the audio choice: the position of the first
      audio candidate of maximal `(abr, tbr)`, or -1 when there is none. */
  ghost function AudioRef(fs: seq<RawFormat>): (b: int)
    ensures -1 <= b < |fs|
    ensures b >= 0 ==> FirstMaxAudio(fs, b)
    ensures b < 0 <==> forall m :: 0 <= m < |fs| ==> !IsAudio(fs[m])
  {
    if fs == [] then -1
    else
      var p := fs[..|fs| - 1];
      var f := fs[|fs| - 1];
      var b := AudioRef(p);
      assert forall m :: 0 <= m < |p| ==> fs[m] == p[m];
      if IsAudio(f) && (b < 0 || AudioBelow(p[b], f)) then |fs| - 1 else b
  }

  /** `audio_best`: the chosen candidate, or none without candidates. */
  function BestAudio(fs: seq<RawFormat>): (r: Option<RawFormat>)
    ensures r.None? <==> AudioRef(fs) < 0
    ensures r.Some? ==> r.value == fs[AudioRef(fs)]
  {
    var cs := AudioCandidates(fs);
    if cs == [] then None
    else
      BestAudioIsRef(fs);
      Some(cs[MaxIndex(cs)])
  }

  /** The maximum over the filtered candidates is the reference choice. */
  lemma {:induction false} BestAudioIsRef(fs: seq<RawFormat>)
    requires AudioCandidates(fs) != []
    ensures AudioRef(fs) >= 0
    ensures AudioCandidates(fs)[MaxIndex(AudioCandidates(fs))] == fs[AudioRef(fs)]
  {
    var p := fs[..|fs| - 1];
    var f := fs[|fs| - 1];
    var cs := AudioCandidates(p);
    var cs' := AudioCandidates(fs);
    if !IsAudio(f) {
      assert cs' == cs;
      BestAudioIsRef(p);
      assert AudioRef(fs) == AudioRef(p);
      assert fs[AudioRef(p)] == p[AudioRef(p)];
    } else if cs == [] {
      assert AudioRef(p) < 0;
      assert AudioRef(fs) == |fs| - 1;
      assert |cs'| == 1 && cs'[0] == f;
    } else {
      BestAudioIsRef(p);
      var b := MaxIndex(cs);
      var r := AudioRef(p);
      assert cs'[..|cs'| - 1] == cs && cs'[|cs'| - 1] == f;
      assert cs[b] == p[r] && p[r] == fs[r];
      if AudioBelow(p[r], f) {
        assert MaxIndex(cs') == |cs'| - 1;
        assert AudioRef(fs) == |fs| - 1;
      } else {
        assert MaxIndex(cs') == b;
        assert AudioRef(fs) == r;
      }
    }
  }

  // ---------------------------------------------------------------------
  // The catalog
  // ---------------------------------------------------------------------

  /** One dropdown row: its label and the format id it stands for. */
  datatype Entry = Entry(caption: string, formatId: string)

  /** The fields `get_video_info` assigns: `formats` (the dropdown rows),
      `dropdown_format_ids`, `video_format_ids` and `audio_format_id`. */
  datatype Catalog = Catalog(
    formats: seq<Entry>,
    dropdownIds: seq<string>,
    videoIds: seq<string>,
    audioId: Option<string>)

  /** `f"{height}p - {ext}"`. */
  function VideoLabel(k: Key): string {
    Decimal(k.height) + "p - " + k.ext
  }

  /** `f"Audio Only - {ext or 'audio'}"`. */
  function AudioLabel(f: RawFormat): string {
    "Audio Only - " + StrOr(f.ext, "audio")
  }

  function VideoEntries(gs: seq<Group>): (es: seq<Entry>)
    ensures |es| == |gs|
    ensures forall i :: 0 <= i < |gs| ==> es[i] == Entry(VideoLabel(gs[i].key), gs[i].rec.formatId)
  {
    seq(|gs|, i requires 0 <= i < |gs| => Entry(VideoLabel(gs[i].key), gs[i].rec.formatId))
  }

  /** The list comprehension `[format_id for _label, format_id in items]`. */
  function Ids(es: seq<Entry>): (ids: seq<string>)
    ensures |ids| == |es|
    ensures forall i :: 0 <= i < |es| ==> ids[i] == es[i].formatId
  {
    seq(|es|, i requires 0 <= i < |es| => es[i].formatId)
  }

  lemma IdsAppend(a: seq<Entry>, b: seq<Entry>)
    ensures Ids(a + b) == Ids(a) + Ids(b)
  {
  }

  /** The catalog made of sorted video groups and the chosen audio record:
      the video rows in order, then the audio row if there is one. */
  function Assemble(videos: seq<Group>, audio: Option<RawFormat>): (c: Catalog)
    ensures |c.videoIds| == |videos|
    ensures |c.formats| == |videos| + (if audio.Some? then 1 else 0)
    ensures forall i :: 0 <= i < |videos| ==>
      c.videoIds[i] == videos[i].rec.formatId && c.formats[i] == Entry(VideoLabel(videos[i].key), videos[i].rec.formatId)
    ensures c.dropdownIds == Ids(c.formats)
    ensures c.dropdownIds == c.videoIds + (if c.audioId.Some? then [c.audioId.value] else [])
    ensures c.audioId == (if audio.Some? then Some(audio.value.formatId) else None)
    ensures audio.Some? ==> c.formats[|c.formats| - 1] == Entry(AudioLabel(audio.value), audio.value.formatId)
  {
    var v := VideoEntries(videos);
    var tail := if audio.Some? then [Entry(AudioLabel(audio.value), audio.value.formatId)] else [];
    var items := v + tail;
    IdsAppend(v, tail);
    Catalog(items, Ids(items), Ids(v), if audio.Some? then Some(audio.value.formatId) else None)
  }

  /** The catalog `get_video_info` builds from the extractor's `formats`. */
  function BuildCatalog(fs: seq<RawFormat>): (c: Catalog)
    ensures |c.videoIds| == |VideoGroups(fs)| <= |c.formats|
    ensures forall i :: 0 <= i < |VideoGroups(fs)| ==>
      && c.videoIds[i] == VideoGroups(fs)[i].rec.formatId
      && c.formats[i] == Entry(VideoLabel(VideoGroups(fs)[i].key), VideoGroups(fs)[i].rec.formatId)
    ensures c.dropdownIds == Ids(c.formats)
    ensures c.dropdownIds == c.videoIds + (if c.audioId.Some? then [c.audioId.value] else [])
    ensures c.audioId.None? <==> forall m :: 0 <= m < |fs| ==> !IsAudio(fs[m])
    ensures c.audioId.Some? ==> && c.audioId.value == fs[AudioRef(fs)].formatId
                                && c.formats[|c.formats| - 1] == Entry(AudioLabel(fs[AudioRef(fs)]), fs[AudioRef(fs)].formatId)
  {
    Assemble(VideoGroups(fs), BestAudio(fs))
  }

  /** Video labels determine their key. */
  lemma VideoLabelInjective(a: Key, b: Key)
    requires VideoLabel(a) == VideoLabel(b)
    ensures a == b
  {
    var da, db := Decimal(a.height), Decimal(b.height);
    LabelSplits(da, a.ext);
    LabelSplits(db, b.ext);
    assert |da| == |db|;
    assert da == VideoLabel(a)[..|da|];
    assert db == VideoLabel(b)[..|db|];
    DecimalInjective(a.height, b.height);
  }

  /** The digits before the first 'p' of a label, and the text after " - ". */
  lemma LabelSplits(d: string, ext: string)
    requires 'p' !in d
    ensures IndexOfChar(d + "p - " + ext, 'p') == |d|
    ensures (d + "p - " + ext)[..|d|] == d && (d + "p - " + ext)[|d| + 4..] == ext
  {
    IndexAfterPrefix(d, 'p', " - " + ext);
    assert d + "p - " + ext == d + ['p'] + (" - " + ext);
  }

  /** A video label starts with a digit or a minus sign, never with the
      letter that opens the audio label. */
  lemma VideoLabelNotAudio(k: Key, f: RawFormat)
    ensures VideoLabel(k) != [] && AudioLabel(f) != []
    ensures VideoLabel(k)[0] != AudioLabel(f)[0]
  {
    assert VideoLabel(k)[0] == Decimal(k.height)[0];
  }

  /** Rows built from groups with distinct keys carry distinct labels. */
  lemma AssembledLabelsDistinct(videos: seq<Group>, audio: Option<RawFormat>)
    requires DistinctKeys(videos)
    ensures forall i, j :: 0 <= i < j < |Assemble(videos, audio).formats| ==>
      Assemble(videos, audio).formats[i].caption != Assemble(videos, audio).formats[j].caption
  {
    var rows := Assemble(videos, audio).formats;
    forall i, j | 0 <= i < j < |rows| ensures rows[i].caption != rows[j].caption {
      if j < |videos| {
        if rows[i].caption == rows[j].caption {
          VideoLabelInjective(videos[i].key, videos[j].key);
        }
      } else {
        VideoLabelNotAudio(videos[i].key, audio.value);
      }
    }
  }

  /** The dropdown never shows the same label twice: video labels are
      distinct because their keys are, and the audio label starts with a
      letter where every video label starts with a digit or a minus sign. */
  lemma CatalogLabelsDistinct(fs: seq<RawFormat>)
    ensures forall i, j :: 0 <= i < j < |BuildCatalog(fs).formats| ==>
      BuildCatalog(fs).formats[i].caption != BuildCatalog(fs).formats[j].caption
  {
    SortedDistinct(VideoGroups(fs));
    AssembledLabelsDistinct(VideoGroups(fs), BestAudio(fs));
  }
}
