/** The optional value used for regex matches, dictionary lookups and "message or none". */
module Wrappers {

  datatype Option<+T> = None | Some(value: T) {

    /** The value, or the default when there is none (Python's `dict.get(key, default)`). */
    function GetOr(default: T): T {
      match this
      case Some(v) => v
      case None => default
    }
  }

  /** The list of values an optional value holds: zero or one element. */
  function OptionToSeq<T>(o: Option<T>): (r: seq<T>)
    ensures |r| <= 1
    ensures o.Some? ==> r == [o.value]
    ensures o.None? ==> r == []
  {
    match o
    case Some(v) => [v]
    case None => []
  }

  /** The values f yields for the elements of xs, in order, skipping the elements it rejects. */
  function FilterMap<A, B>(f: A -> Option<B>, xs: seq<A>): seq<B> {
    if xs == [] then [] else OptionToSeq(f(xs[0])) + FilterMap(f, xs[1..])
  }

  /** FilterMap yields exactly the values f gives some element. */
  lemma {:induction false} FilterMapMembers<A, B>(f: A -> Option<B>, xs: seq<A>)
    ensures forall y :: y in FilterMap(f, xs) <==> exists i :: 0 <= i < |xs| && f(xs[i]) == Some(y)
  {
    if xs != [] {
      FilterMapMembers(f, xs[1..]);
      forall y ensures y in FilterMap(f, xs) <==> exists i :: 0 <= i < |xs| && f(xs[i]) == Some(y) {
        if y in FilterMap(f, xs) {
          if y in OptionToSeq(f(xs[0])) {
            assert f(xs[0]) == Some(y);
          } else {
            var i :| 0 <= i < |xs[1..]| && f(xs[1..][i]) == Some(y);
            assert f(xs[i + 1]) == Some(y);
          }
        }
        if exists i :: 0 <= i < |xs| && f(xs[i]) == Some(y) {
          var i :| 0 <= i < |xs| && f(xs[i]) == Some(y);
          if i > 0 {
            assert f(xs[1..][i - 1]) == Some(y);
          }
        }
      }
    }
  }

  /** FilterMap of a concatenation is the concatenation of the FilterMaps. */
  lemma {:induction false} FilterMapAppend<A, B>(f: A -> Option<B>, xs: seq<A>, ys: seq<A>)
    ensures FilterMap(f, xs + ys) == FilterMap(f, xs) + FilterMap(f, ys)
  {
    if xs == [] {
      assert xs + ys == ys;
    } else {
      assert (xs + ys)[1..] == xs[1..] + ys;
      FilterMapAppend(f, xs[1..], ys);
    }
  }

  /** FilterMap of one more element at the end. */
  lemma FilterMapSnoc<A, B>(f: A -> Option<B>, xs: seq<A>, x: A)
    ensures FilterMap(f, xs + [x]) == FilterMap(f, xs) + OptionToSeq(f(x))
  {
    FilterMapAppend(f, xs, [x]);
    assert [x][1..] == [];
  }

  /** FilterMap from position i on: what xs[i] yields, then the rest. */
  lemma FilterMapDrop<A, B>(f: A -> Option<B>, xs: seq<A>, i: nat)
    requires i < |xs|
    ensures FilterMap(f, xs[i..]) == OptionToSeq(f(xs[i])) + FilterMap(f, xs[i + 1..])
  {
    assert xs[i..][1..] == xs[i + 1..];
  }

  /** b is the suffix of a + b of its own length. */
  lemma SuffixOfAppend<T>(a: seq<T>, b: seq<T>)
    ensures |b| <= |a + b| && (a + b)[|a + b| - |b|..] == b
  {
  }

  lemma AppendAssoc<T>(a: seq<T>, b: seq<T>, c: seq<T>)
    ensures a + (b + c) == (a + b) + c
  {
  }

  /** The value of the first present entry from position i on, else dflt. */
  function FirstSomeFrom<T>(xs: seq<Option<T>>, i: nat, dflt: T): T
    requires i <= |xs|
    decreases |xs| - i
  {
    if i == |xs| then dflt
    else if xs[i].Some? then xs[i].value
    else FirstSomeFrom(xs, i + 1, dflt)
  }

  /** The first present entry at or after i is the one chosen. */
  lemma {:induction false} FirstSomeAt<T>(xs: seq<Option<T>>, i: nat, k: nat, dflt: T)
    requires i <= k < |xs| && xs[k].Some?
    requires forall j :: i <= j < k ==> xs[j].None?
    ensures FirstSomeFrom(xs, i, dflt) == xs[k].value
    decreases k - i
  {
    if i < k {
      FirstSomeAt(xs, i + 1, k, dflt);
    }
  }

  /** With no present entry at or after i, the default is chosen. */
  lemma {:induction false} FirstSomeNone<T>(xs: seq<Option<T>>, i: nat, dflt: T)
    requires i <= |xs|
    requires forall j :: i <= j < |xs| ==> xs[j].None?
    ensures FirstSomeFrom(xs, i, dflt) == dflt
    decreases |xs| - i
  {
    if i < |xs| {
      FirstSomeNone(xs, i + 1, dflt);
    }
  }

  /** The choice is the default or one of the present values. */
  lemma {:induction false} FirstSomeIsPresent<T>(xs: seq<Option<T>>, i: nat, dflt: T)
    requires i <= |xs|
    ensures FirstSomeFrom(xs, i, dflt) == dflt || Some(FirstSomeFrom(xs, i, dflt)) in xs
    decreases |xs| - i
  {
    if i < |xs| && xs[i].None? {
      FirstSomeIsPresent(xs, i + 1, dflt);
    }
  }

  /** The smaller of two counts, as `xs[:n]` takes min(n, len(xs)) elements. */
  function Min(a: nat, b: nat): nat {
    if a <= b then a else b
  }
}
