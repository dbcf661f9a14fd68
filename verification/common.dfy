/** Values and sequence helpers shared by the query service and the ingestion script. */
module Common {

  datatype Option<+T> = None | Some(value: T)

  /** A value, or the text of the exception that replaced it. */
  datatype Result<+T> = Success(value: T) | Failure(error: string)

  /** A Python dict with string keys and string values (chunk metadata). */
  type Metadata = map<string, string>

  /** The label a chunk's metadata gives its source file. */
  const UnknownSource := "Unknown"

  /** metadata.get("source", "Unknown"). */
  function SourceLabel(md: Metadata): string {
    if "source" in md then md["source"] else UnknownSource
  }

  /** No element occurs twice. */
  predicate NoDup<T(==)>(xs: seq<T>) {
    forall i, j :: 0 <= i < j < |xs| ==> xs[i] != xs[j]
  }

  /** Number of occurrences of x in xs. */
  function Count<T(==)>(xs: seq<T>, x: T): nat {
    if xs == [] then 0
    else Count(xs[..|xs| - 1], x) + (if xs[|xs| - 1] == x then 1 else 0)
  }

  lemma {:induction false} CountPositiveIffIn<T>(xs: seq<T>, x: T)
    ensures Count(xs, x) > 0 <==> x in xs
  {
    if xs != [] {
      var init := xs[..|xs| - 1];
      CountPositiveIffIn(init, x);
      assert xs == init + [xs[|xs| - 1]];
    }
  }

  /** The elements of xs without repetitions, each at its first occurrence. */
  function Distinct(xs: seq<string>): (r: seq<string>)
    ensures NoDup(r)
    ensures forall x :: x in r <==> x in xs
  {
    if xs == [] then []
    else
      var init := xs[..|xs| - 1];
      var d := Distinct(init);
      assert forall x :: x in xs <==> x in init || x == xs[|xs| - 1] by {
        assert xs == init + [xs[|xs| - 1]];
      }
      if xs[|xs| - 1] in d then d else d + [xs[|xs| - 1]]
  }

  /** A duplicate-free sequence has exactly as many elements as its set. */
  lemma {:induction false} NoDupCardinality<T>(xs: seq<T>)
    requires NoDup(xs)
    ensures |set x | x in xs| == |xs|
  {
    if xs != [] {
      var init := xs[..|xs| - 1];
      var last := xs[|xs| - 1];
      NoDupCardinality(init);
      assert last !in init by {
        assert forall i :: 0 <= i < |init| ==> init[i] == xs[i] != xs[|xs| - 1];
      }
      assert (set x | x in xs) == (set x | x in init) + {last} by {
        assert xs == init + [last];
      }
    }
  }

  /** The pieces f gives the elements of xs, one after the other. */
  function ConcatMap<T, U>(xs: seq<T>, f: T -> seq<U>): seq<U> {
    if xs == [] then []
    else ConcatMap(xs[..|xs| - 1], f) + f(xs[|xs| - 1])
  }

  lemma {:induction false} ConcatMapAppend<T, U>(a: seq<T>, b: seq<T>, f: T -> seq<U>)
    ensures ConcatMap(a + b, f) == ConcatMap(a, f) + ConcatMap(b, f)
  {
    if b == [] {
      assert a + b == a;
    } else {
      var b' := b[..|b| - 1];
      ConcatMapAppend(a, b', f);
      var ab := a + b;
      assert ab[..|ab| - 1] == a + b' && ab[|ab| - 1] == b[|b| - 1];
    }
  }

  /** Python's sep.join(parts). */
  function Join(parts: seq<string>, sep: string): string {
    if |parts| == 0 then ""
    else if |parts| == 1 then parts[0]
    else Join(parts[..|parts| - 1], sep) + sep + parts[|parts| - 1]
  }

  /** Where part i starts in Join(parts, sep). */
  function JoinOffset(parts: seq<string>, sep: string, i: nat): nat
    requires i <= |parts|
  {
    if i == 0 then 0 else JoinOffset(parts, sep, i - 1) + |parts[i - 1]| + |sep|
  }

  lemma {:induction false} JoinOffsetPrefix(parts: seq<string>, sep: string, k: nat, i: nat)
    requires i <= k <= |parts|
    ensures JoinOffset(parts[..k], sep, i) == JoinOffset(parts, sep, i)
  {
    if i > 0 {
      JoinOffsetPrefix(parts, sep, k, i - 1);
    }
  }

  /** The join has every part's length plus one separator between neighbours. */
  lemma {:induction false} JoinLength(parts: seq<string>, sep: string)
    requires parts != []
    ensures |Join(parts, sep)| + |sep| == JoinOffset(parts, sep, |parts|)
  {
    var n := |parts|;
    if n > 1 {
      JoinLength(parts[..n - 1], sep);
      JoinOffsetPrefix(parts, sep, n - 1, n - 1);
    }
  }

  /** The join of a prefix of the parts is a prefix of the join. */
  lemma {:induction false} JoinPrefix(parts: seq<string>, sep: string, k: nat)
    requires 1 <= k <= |parts|
    ensures |Join(parts[..k], sep)| <= |Join(parts, sep)|
    ensures Join(parts, sep)[..|Join(parts[..k], sep)|] == Join(parts[..k], sep)
  {
    var n := |parts|;
    if k == n {
      assert parts[..k] == parts;
    } else {
      var init := parts[..n - 1];
      JoinPrefix(init, sep, k);
      assert init[..k] == parts[..k];
      assert Join(parts, sep) == Join(init, sep) + sep + parts[n - 1];
    }
  }

  /** The join of the first i + 1 parts ends with part i, at JoinOffset(parts, sep, i). */
  lemma JoinUpTo(parts: seq<string>, sep: string, i: nat)
    requires i < |parts|
    ensures |Join(parts[..i + 1], sep)| == JoinOffset(parts, sep, i) + |parts[i]|
    ensures Join(parts[..i + 1], sep)[JoinOffset(parts, sep, i)..] == parts[i]
  {
    var pre := parts[..i + 1];
    JoinLength(pre, sep);
    JoinOffsetPrefix(parts, sep, i + 1, i + 1);
    JoinOffsetPrefix(parts, sep, i + 1, i);
    if i > 0 {
      assert pre[..i] == parts[..i];
      JoinLength(parts[..i], sep);
      JoinOffsetPrefix(parts, sep, i, i);
    }
  }

  /** Part i sits, unchanged, at JoinOffset(parts, sep, i) in the join. */
  lemma JoinPlacesPart(parts: seq<string>, sep: string, i: nat)
    requires i < |parts|
    ensures JoinOffset(parts, sep, i) + |parts[i]| <= |Join(parts, sep)|
    ensures Join(parts, sep)[JoinOffset(parts, sep, i)..JoinOffset(parts, sep, i) + |parts[i]|] == parts[i]
  {
    JoinUpTo(parts, sep, i);
    JoinPrefix(parts, sep, i + 1);
    var o := JoinOffset(parts, sep, i);
    var pre := Join(parts[..i + 1], sep);
    assert Join(parts, sep)[o..o + |parts[i]|] == pre[o..];
  }

  /** Between part i and part i + 1 the join holds exactly the separator. */
  lemma JoinPlacesSeparator(parts: seq<string>, sep: string, i: nat)
    requires i + 1 < |parts|
    ensures JoinOffset(parts, sep, i + 1) <= |Join(parts, sep)|
    ensures Join(parts, sep)[JoinOffset(parts, sep, i) + |parts[i]|..JoinOffset(parts, sep, i + 1)] == sep
  {
    JoinUpTo(parts, sep, i);
    JoinPrefix(parts, sep, i + 2);
    var pre := parts[..i + 2];
    assert pre[..i + 1] == parts[..i + 1];
    var j2 := Join(pre, sep);
    assert j2 == Join(parts[..i + 1], sep) + sep + parts[i + 1];
    var a := JoinOffset(parts, sep, i) + |parts[i]|;
    assert Join(parts, sep)[a..a + |sep|] == j2[a..a + |sep|];
  }
}
