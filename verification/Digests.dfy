/** The bytes a source's digest is taken over (core/crates/objectflow-core/src/source.rs, `digest`, `parted`,
    `is_carried`; scripts/flowpublish.py, `source_digest`). */
module Digests {
  import opened Wrappers

  newtype byte = x: int | 0 <= x < 256

  type Bytes = seq<byte>

  /** A file's name and text, each as its bytes. */
  type File = (Bytes, Bytes)

  const FEED: byte := 10

  /** Bytes in ascending order, a beginning before what it begins. */
  predicate AtMost(a: Bytes, b: Bytes) {
    a == [] || (b != [] && (a[0] < b[0] || (a[0] == b[0] && AtMost(a[1..], b[1..]))))
  }

  lemma {:induction false} AtMostTotal(a: Bytes, b: Bytes)
    ensures AtMost(a, b) || AtMost(b, a)
    ensures AtMost(a, b) && AtMost(b, a) ==> a == b
  {
    if a != [] && b != [] && a[0] == b[0] {
      AtMostTotal(a[1..], b[1..]);
      assert a == [a[0]] + a[1..] && b == [b[0]] + b[1..];
    }
  }

  lemma {:induction false} AtMostTransitive(a: Bytes, b: Bytes, c: Bytes)
    requires AtMost(a, b) && AtMost(b, c)
    ensures AtMost(a, c)
  {
    if a != [] && b != [] && c != [] && a[0] == b[0] == c[0] {
      AtMostTransitive(a[1..], b[1..], c[1..]);
    }
  }

  // sorting

  ghost predicate Sorted(files: seq<File>) {
    forall i, j | 0 <= i < j < |files| :: AtMost(files[i].0, files[j].0)
  }

  function Insert(f: File, files: seq<File>): seq<File> {
    if files == [] then [f]
    else if AtMost(files[|files| - 1].0, f.0) then files + [f]
    else Insert(f, files[..|files| - 1]) + [files[|files| - 1]]
  }

  lemma {:induction false} InsertSorts(f: File, files: seq<File>)
    requires Sorted(files)
    ensures Sorted(Insert(f, files)) && multiset(Insert(f, files)) == multiset(files) + multiset{f}
  {
    if files != [] {
      var n := |files| - 1;
      var last := files[n];
      assert files == files[..n] + [last];
      if AtMost(last.0, f.0) {
        forall i | 0 <= i < n
          ensures AtMost(files[i].0, f.0)
        {
          AtMostTransitive(files[i].0, last.0, f.0);
        }
      } else {
        InsertSorts(f, files[..n]);
        var some := Insert(f, files[..n]);
        AtMostTotal(last.0, f.0);
        forall i | 0 <= i < |some|
          ensures AtMost(some[i].0, last.0)
        {
          assert some[i] in multiset(some);
          assert some[i] == f || some[i] in files[..n];
        }
      }
    }
  }

  /** The files in ascending order of their names' bytes, those of one name in the order given. */
  function InOrder(files: seq<File>): seq<File> {
    if files == [] then [] else Insert(files[|files| - 1], InOrder(files[..|files| - 1]))
  }

  lemma LastCounted(files: seq<File>)
    requires files != []
    ensures multiset(files) == multiset(files[..|files| - 1]) + multiset{files[|files| - 1]}
  {
    assert files == files[..|files| - 1] + [files[|files| - 1]];
  }

  lemma {:induction false} InOrderSorts(files: seq<File>)
    ensures Sorted(InOrder(files)) && multiset(InOrder(files)) == multiset(files)
  {
    if files != [] {
      var n := |files| - 1;
      var some := InOrder(files[..n]);
      InOrderSorts(files[..n]);
      InsertSorts(files[n], some);
      LastCounted(files);
    }
  }

  /** Two files of one name. */
  ghost predicate Shares(files: seq<File>) {
    exists i, j :: 0 <= i < j < |files| && files[i].0 == files[j].0
  }

  /** Sorted, two files of one name stand side by side. */
  lemma SharedAreAdjacent(files: seq<File>)
    requires Sorted(files)
    ensures Shares(files) <==> exists i :: 0 <= i < |files| - 1 && files[i].0 == files[i + 1].0
  {
    if Shares(files) {
      var i, j :| 0 <= i < j < |files| && files[i].0 == files[j].0;
      AtMostTotal(files[i].0, files[i + 1].0);
      if i + 1 < j {
        assert AtMost(files[i + 1].0, files[j].0);
      }
    }
  }

  /** A name two of its files share, as many files have it in any order. */
  ghost predicate SharedName(files: multiset<File>) {
    exists f, g :: f in files && g in files && f.0 == g.0 && (f == g ==> files[f] >= 2)
  }

  lemma {:induction false} CountOf(files: seq<File>, f: File)
    ensures multiset(files)[f] >= 2 <==> exists i, j :: 0 <= i < j < |files| && files[i] == f && files[j] == f
  {
    if files != [] {
      var n := |files| - 1;
      assert files == files[..n] + [files[n]];
      CountOf(files[..n], f);
      if multiset(files)[f] >= 2 && multiset(files[..n])[f] < 2 {
        assert files[n] == f && f in multiset(files[..n]);
        assert f in files[..n];
        var i :| 0 <= i < n && files[i] == f;
      }
      if i, j :| 0 <= i < j < |files| && files[i] == f && files[j] == f {
        if j < n {
          assert files[..n][i] == f && files[..n][j] == f;
        } else {
          assert files[..n][i] == f;
          assert f in multiset(files[..n]);
        }
      }
    }
  }

  lemma SharesAnyOrder(files: seq<File>)
    ensures Shares(files) <==> SharedName(multiset(files))
  {
    if Shares(files) {
      var i, j :| 0 <= i < j < |files| && files[i].0 == files[j].0;
      var f, g := files[i], files[j];
      CountOf(files, f);
      assert f in multiset(files) && g in multiset(files);
    }
    if SharedName(multiset(files)) {
      var f, g :| f in multiset(files) && g in multiset(files) && f.0 == g.0 && (f == g ==> multiset(files)[f] >= 2);
      if f == g {
        CountOf(files, f);
      } else {
        assert f in files && g in files;
        var i :| 0 <= i < |files| && files[i] == f;
        var j :| 0 <= j < |files| && files[j] == g;
        assert i < j || j < i;
      }
    }
  }

  /** Two sorted orders of the same files, no name twice, are one. */
  lemma {:induction false} SortedUnique(a: seq<File>, b: seq<File>)
    requires Sorted(a) && Sorted(b) && multiset(a) == multiset(b) && !Shares(a)
    ensures a == b
  {
    assert |multiset(a)| == |a| && |multiset(b)| == |b|;
    if a != [] {
      SortedFirst(a, b);
      RestCounted(a);
      RestCounted(b);
      RestShares(a);
      SortedUnique(a[1..], b[1..]);
      assert a == [a[0]] + a[1..] && b == [b[0]] + b[1..];
    }
  }

  lemma RestCounted(files: seq<File>)
    requires files != []
    ensures multiset(files[1..]) == multiset(files) - multiset{files[0]}
  {
    assert files == [files[0]] + files[1..];
  }

  lemma SortedFirst(a: seq<File>, b: seq<File>)
    requires Sorted(a) && Sorted(b) && multiset(a) == multiset(b) && !Shares(a) && a != [] && b != []
    ensures a[0] == b[0]
  {
    assert a[0] in multiset(b) && b[0] in multiset(a);
    FirstAtMost(a, b[0]);
    FirstAtMost(b, a[0]);
    AtMostTotal(a[0].0, b[0].0);
    var j :| 0 <= j < |a| && a[j] == b[0];
    assert a[j].0 == a[0].0;
  }

  lemma FirstAtMost(files: seq<File>, f: File)
    requires Sorted(files) && f in files
    ensures AtMost(files[0].0, f.0)
  {
    AtMostTotal(f.0, f.0);
  }

  lemma RestShares(files: seq<File>)
    requires files != []
    ensures Shares(files[1..]) ==> Shares(files)
  {
    if Shares(files[1..]) {
      var k, l :| 0 <= k < l < |files[1..]| && files[1..][k].0 == files[1..][l].0;
      assert files[k + 1].0 == files[l + 1].0;
    }
  }

  // the encoding

  /** A length in decimal. */
  function Decimal(n: nat): (s: Bytes)
    ensures s != [] && forall i | 0 <= i < |s| :: 48 <= s[i] <= 57
  {
    var d := [(48 + n % 10) as byte];
    if n < 10 then d else Decimal(n / 10) + d
  }

  function Undecimal(s: Bytes): int {
    if s == [] then 0 else Undecimal(s[..|s| - 1]) * 10 + (s[|s| - 1] as int - 48)
  }

  lemma {:induction false} DecimalReads(n: nat)
    ensures Undecimal(Decimal(n)) == n
  {
    if n >= 10 {
      DecimalReads(n / 10);
      var s := Decimal(n);
      assert s[..|s| - 1] == Decimal(n / 10);
    }
  }

  function EncodeOne(f: File): Bytes {
    f.0 + [FEED] + Decimal(|f.1|) + [FEED] + f.1
  }

  function Encode(files: seq<File>): Bytes {
    if files == [] then [] else EncodeOne(files[0]) + Encode(files[1..])
  }

  predicate Feedless(s: Bytes) {
    forall i | 0 <= i < |s| :: s[i] != FEED
  }

  predicate AllFeedless(files: seq<File>) {
    forall i | 0 <= i < |files| :: Feedless(files[i].0)
  }

  /** What stands before the first line feed is one thing. */
  lemma BeforeFeed(a: Bytes, x: Bytes, b: Bytes, y: Bytes)
    requires Feedless(a) && Feedless(b) && a + [FEED] + x == b + [FEED] + y
    ensures a == b && x == y
  {
    FeedAfter(a, x);
    FeedAfter(b, y);
    var s := a + [FEED] + x;
    assert a == s[..|a|] && b == s[..|b|];
    assert x == s[|a| + 1..] && y == s[|b| + 1..];
  }

  /** Where the first line feed stands. */
  function FirstFeed(s: Bytes): nat {
    if s == [] || s[0] == FEED then 0 else 1 + FirstFeed(s[1..])
  }

  lemma {:induction false} FeedAfter(a: Bytes, x: Bytes)
    requires Feedless(a)
    ensures FirstFeed(a + [FEED] + x) == |a|
  {
    if a != [] {
      FeedAfter(a[1..], x);
      assert (a + [FEED] + x)[1..] == a[1..] + [FEED] + x;
    }
  }

  lemma OneThenRest(f: File, rest: Bytes)
    ensures EncodeOne(f) + rest == f.0 + [FEED] + (Decimal(|f.1|) + [FEED] + (f.1 + rest))
  {
  }

  lemma FirstIsOne(f: File, x: Bytes, g: File, y: Bytes)
    requires Feedless(f.0) && Feedless(g.0) && EncodeOne(f) + x == EncodeOne(g) + y
    ensures f == g && x == y
  {
    OneThenRest(f, x);
    OneThenRest(g, y);
    BeforeFeed(f.0, Decimal(|f.1|) + [FEED] + (f.1 + x), g.0, Decimal(|g.1|) + [FEED] + (g.1 + y));
    BeforeFeed(Decimal(|f.1|), f.1 + x, Decimal(|g.1|), g.1 + y);
    DecimalReads(|f.1|);
    DecimalReads(|g.1|);
    var s := f.1 + x;
    assert f.1 == s[..|f.1|] && g.1 == s[..|g.1|];
    assert x == s[|f.1|..] && y == s[|g.1|..];
  }

  /** Two lists of files whose names hold no line feed encode alike only where they are one list. */
  lemma {:induction false} EncodeInjective(a: seq<File>, b: seq<File>)
    requires AllFeedless(a) && AllFeedless(b) && Encode(a) == Encode(b)
    ensures a == b
  {
    if a == [] || b == [] {
      assert a == [] && b == [] by {
        NotNothing(a);
        NotNothing(b);
      }
    } else {
      FirstIsOne(a[0], Encode(a[1..]), b[0], Encode(b[1..]));
      EncodeInjective(a[1..], b[1..]);
      assert a == [a[0]] + a[1..] && b == [b[0]] + b[1..];
    }
  }

  lemma NotNothing(a: seq<File>)
    ensures a != [] ==> Encode(a) != []
  {
  }

  // the digest's bytes

  /** What the digest is taken over; nothing where two files share a name. */
  method BytesOf(files: seq<File>) returns (r: Option<Bytes>)
    ensures r.None? <==> Shares(files)
    ensures r.Some? ==> r.value == Encode(InOrder(files))
  {
    var sorted := InOrder(files);
    InOrderSorts(files);
    SharedAreAdjacent(sorted);
    SharesAnyOrder(files);
    SharesAnyOrder(sorted);
    var twice := Adjacent(sorted);
    if twice {
      return None;
    }
    var bytes := Encoded(sorted);
    r := Some(bytes);
  }

  /** Whether two files side by side share a name. */
  method Adjacent(files: seq<File>) returns (found: bool)
    ensures found <==> exists i :: 0 <= i < |files| - 1 && files[i].0 == files[i + 1].0
  {
    found := false;
    for i := 0 to |files|
      invariant !found && forall k | 0 <= k < i && k < |files| - 1 :: files[k].0 != files[k + 1].0
    {
      if i + 1 < |files| && files[i].0 == files[i + 1].0 {
        return true;
      }
    }
  }

  /** Each file's bytes after the last's. */
  method Encoded(files: seq<File>) returns (bytes: Bytes)
    ensures bytes == Encode(files)
  {
    bytes := [];
    for i := 0 to |files|
      invariant bytes + Encode(files[i..]) == Encode(files)
    {
      assert files[i..][0] == files[i] && files[i..][1..] == files[i + 1..];
      Grouped(bytes, EncodeOne(files[i]), Encode(files[i + 1..]));
      bytes := bytes + EncodeOne(files[i]);
    }
  }

  lemma Grouped(a: Bytes, b: Bytes, c: Bytes)
    ensures a + (b + c) == a + b + c
  {
  }

  /** Canonical: in whatever order the same files are given, their bytes are the same. */
  lemma OrderDoesNotMatter(a: seq<File>, b: seq<File>)
    requires multiset(a) == multiset(b) && !Shares(a)
    ensures !Shares(b) && InOrder(a) == InOrder(b)
  {
    SharesAnyOrder(a);
    SharesAnyOrder(b);
    InOrderSorts(a);
    InOrderSorts(b);
    SharesAnyOrder(InOrder(a));
    SortedUnique(InOrder(a), InOrder(b));
  }

  /** And of different files, where no name holds a line feed, different. */
  lemma DifferentFilesDiffer(a: seq<File>, b: seq<File>)
    requires AllFeedless(a) && AllFeedless(b) && !Shares(a) && !Shares(b)
    ensures Encode(InOrder(a)) == Encode(InOrder(b)) <==> multiset(a) == multiset(b)
  {
    InOrderSorts(a);
    InOrderSorts(b);
    if multiset(a) == multiset(b) {
      OrderDoesNotMatter(a, b);
    }
    if Encode(InOrder(a)) == Encode(InOrder(b)) {
      FeedlessAnyOrder(a, InOrder(a));
      FeedlessAnyOrder(b, InOrder(b));
      EncodeInjective(InOrder(a), InOrder(b));
    }
  }

  lemma FeedlessAnyOrder(a: seq<File>, b: seq<File>)
    requires AllFeedless(a) && multiset(a) == multiset(b)
    ensures AllFeedless(b)
  {
    forall i | 0 <= i < |b|
      ensures Feedless(b[i].0)
    {
      assert b[i] in multiset(a);
      assert b[i] in a;
    }
  }

  /** With a line feed in a name, one file and two encode alike. */
  lemma FeedsCollide()
    ensures var one := [([97, FEED, 49, FEED, 98, 99], [])];
            var two := [([97], [98]), ([99], [])];
            Encode(one) == Encode(two) && InOrder(two) == two && InOrder(one) == one && one != two
  {
    var one: seq<File> := [([97, FEED, 49, FEED, 98, 99], [])];
    var two: seq<File> := [([97], [98]), ([99], [])];
    assert one[1..] == [] && two[1..] == [([99], [])] && two[1..][1..] == [];
    assert Decimal(0) == [48] && Decimal(1) == [49];
    assert EncodeOne(one[0]) == [97, FEED, 49, FEED, 98, 99, FEED, 48, FEED];
    assert EncodeOne(two[0]) == [97, FEED, 49, FEED, 98];
    assert EncodeOne(two[1]) == [99, FEED, 48, FEED];
    assert Encode(two[1..]) == EncodeOne(two[1]) + [];
    assert one[..0] == [] && two[..1] == [([97], [98])] && two[..1][..0] == [];
    assert InOrder(two[..1]) == two[..1];
  }

  // the files carried

  predicate Alphanumeric(b: byte) {
    48 <= b <= 57 || 65 <= b <= 90 || 97 <= b <= 122
  }

  /** A file its examples read: `<name>.yaml`, its name begun by a letter, a digit or an underscore. */
  predicate IsCarried(name: Bytes) {
    var n := |name| - 5;
    && n >= 1 && name[n..] == [46, 121, 97, 109, 108]
    && (Alphanumeric(name[0]) || name[0] == 95)
    && forall i | 0 <= i < n :: Alphanumeric(name[i]) || name[i] == 95 || name[i] == 46 || name[i] == 45
  }

  /** The version's own files, and those its examples read, each in the order given. */
  function Parted(files: seq<File>): (seq<File>, seq<File>) {
    if files == [] then ([], [])
    else
      var (own, carried) := Parted(files[..|files| - 1]);
      var f := files[|files| - 1];
      if IsCarried(f.0) then (own, carried + [f]) else (own + [f], carried)
  }

  /** Parted, each file is in one part, the one its name says, and together they digest as the source did. */
  lemma {:induction false} PartedDigests(files: seq<File>)
    ensures var (own, carried) := Parted(files);
            && (forall f | f in own :: !IsCarried(f.0)) && (forall f | f in carried :: IsCarried(f.0))
            && multiset(own + carried) == multiset(files)
            && (!Shares(files) ==> InOrder(own + carried) == InOrder(files))
  {
    PartedAll(files);
    var (own, carried) := Parted(files);
    if !Shares(files) {
      OrderDoesNotMatter(files, own + carried);
    }
  }

  lemma {:induction false} PartedAll(files: seq<File>)
    ensures var (own, carried) := Parted(files);
            && (forall f | f in own :: !IsCarried(f.0)) && (forall f | f in carried :: IsCarried(f.0))
            && multiset(own + carried) == multiset(files)
  {
    if files != [] {
      var n := |files| - 1;
      PartedAll(files[..n]);
      assert files == files[..n] + [files[n]];
    }
  }
}
