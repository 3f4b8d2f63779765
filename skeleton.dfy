/** `src/components/ui/Skeleton.tsx`: the `cn` class-name joiner and the
    class string of the `Skeleton` placeholder. */
module Skeleton {
  import opened Common

  /** One argument of `cn`: `string | undefined | null | false`. */
  datatype ClassArg = Str(s: string) | Undefined | Null | False

  /** `Boolean(arg)`: only a non-empty string is truthy. */
  predicate Truthy(a: ClassArg)
  {
    a.Str? && a.s != []
  }

  /** The strings that survive `filter(Boolean)`, in argument order. */
  function Kept(args: seq<ClassArg>): (r: seq<string>)
    ensures forall i :: 0 <= i < |r| ==> r[i] != []
  {
    if args == [] then []
    else (if Truthy(args[0]) then [args[0].s] else []) + Kept(args[1..])
  }

  /** The summed lengths of the parts. */
  function TotalLength(parts: seq<string>): nat
  {
    if parts == [] then 0 else |parts[0]| + TotalLength(parts[1..])
  }

  /** `Array.prototype.join(' ')`: the first part leads, and one space per
      gap between parts is all that is added. */
  function JoinSpaced(parts: seq<string>): (r: string)
    ensures parts != [] ==> |parts[0]| <= |r| && r[..|parts[0]|] == parts[0]
    ensures |r| == TotalLength(parts) + (if parts == [] then 0 else |parts| - 1)
  {
    if parts == [] then []
    else if |parts| == 1 then
      assert parts[1..] == [];
      parts[0]
    else
      var r := parts[0] + " " + JoinSpaced(parts[1..]);
      assert r[..|parts[0]|] == parts[0];
      r
  }

  /** Joining two non-empty lists puts one space between their joins. */
  lemma {:induction false} JoinAppend(p: seq<string>, q: seq<string>)
    requires p != [] && q != []
    ensures JoinSpaced(p + q) == JoinSpaced(p) + " " + JoinSpaced(q)
  {
    if |p| == 1 {
      assert (p + q)[1..] == q;
    } else {
      assert (p + q)[1..] == p[1..] + q;
      JoinAppend(p[1..], q);
    }
  }

  /** `cn(...classes)` = `classes.filter(Boolean).join(' ')`: empty exactly
      when no argument is truthy, and a single truthy argument comes back
      unchanged. */
  function Cn(args: seq<ClassArg>): (r: string)
    ensures r == [] <==> forall i :: 0 <= i < |args| ==> !Truthy(args[i])
    ensures |args| == 1 && Truthy(args[0]) ==> r == args[0].s
  {
    KeptEmpty(args);
    assert |args| == 1 ==> args[1..] == [];
    JoinSpaced(Kept(args))
  }

  /** `String.prototype.split(' ')`, the inverse of the join. */
  function SplitSpaced(s: string): (r: seq<string>)
    ensures r != []
  {
    if s == [] then [[]]
    else
      var tail := SplitSpaced(s[1..]);
      if s[0] == ' ' then [[]] + tail else [[s[0]] + tail[0]] + tail[1..]
  }

  lemma {:induction false} SplitWord(w: string)
    requires ' ' !in w
    ensures SplitSpaced(w) == [w]
  {
    if w != [] {
      SplitWord(w[1..]);
      assert [w[0]] + w[1..] == w;
    }
  }

  lemma {:induction false} SplitWordThenRest(w: string, rest: string)
    requires ' ' !in w
    ensures SplitSpaced(w + " " + rest) == [w] + SplitSpaced(rest)
  {
    if w == [] {
      assert w + " " + rest == [' '] + rest;
      assert (w + " " + rest)[1..] == rest;
    } else {
      assert (w + " " + rest)[1..] == w[1..] + " " + rest;
      SplitWordThenRest(w[1..], rest);
      assert [w[0]] + w[1..] == w;
    }
  }

  /** The class names appear in argument order separated by exactly one
      space: splitting the joined string on spaces gives them back, as long
      as no class name itself contains a space. */
  lemma {:induction false} SplitJoin(parts: seq<string>)
    requires parts != []
    requires forall i :: 0 <= i < |parts| ==> ' ' !in parts[i]
    ensures SplitSpaced(JoinSpaced(parts)) == parts
  {
    if |parts| == 1 {
      SplitWord(parts[0]);
    } else {
      SplitWordThenRest(parts[0], JoinSpaced(parts[1..]));
      SplitJoin(parts[1..]);
    }
  }

  /** Nothing survives the filter exactly when no argument is truthy. */
  lemma {:induction false} KeptEmpty(args: seq<ClassArg>)
    ensures Kept(args) == [] <==> forall i :: 0 <= i < |args| ==> !Truthy(args[i])
  {
    if args != [] {
      KeptEmpty(args[1..]);
      if !Truthy(args[0]) {
        forall i | 1 <= i < |args| ensures args[i] == args[1..][i - 1] {}
      }
    }
  }

  /** The class names of two argument lists that each hold a truthy one
      are joined by exactly one space, in argument order. */
  lemma CnAppend(a: seq<ClassArg>, b: seq<ClassArg>)
    requires exists i :: 0 <= i < |a| && Truthy(a[i])
    requires exists i :: 0 <= i < |b| && Truthy(b[i])
    ensures Cn(a + b) == Cn(a) + " " + Cn(b)
  {
    KeptAppend(a, b);
    KeptEmpty(a);
    KeptEmpty(b);
    JoinAppend(Kept(a), Kept(b));
  }

  /** A falsy argument anywhere changes nothing. */
  lemma {:induction false} KeptAppend(a: seq<ClassArg>, b: seq<ClassArg>)
    ensures Kept(a + b) == Kept(a) + Kept(b)
  {
    if a == [] {
      assert a + b == b;
    } else {
      assert (a + b)[1..] == a[1..] + b;
      KeptAppend(a[1..], b);
    }
  }

  lemma CnDropsFalsy(a: seq<ClassArg>, x: ClassArg, b: seq<ClassArg>)
    requires !Truthy(x)
    ensures Cn(a + [x] + b) == Cn(a + b)
  {
    KeptAppend(a + [x], b);
    KeptAppend(a, [x]);
    KeptAppend(a, b);
    assert [x][1..] == [];
    assert Kept([x]) == [];
    assert Kept(a + [x]) == Kept(a);
  }

  const SkeletonBase: string := "animate-pulse rounded-md bg-gray-700"

  /** `Skeleton`'s `className`: the base classes, then the caller's class
      name after one space when it is a non-empty string. */
  function SkeletonClass(className: Option<string>): (r: string)
    ensures |SkeletonBase| <= |r| && r[..|SkeletonBase|] == SkeletonBase
    ensures className == None || className == Some([]) ==> r == SkeletonBase
    ensures className.Some? && className.value != [] ==> r == SkeletonBase + " " + className.value
  {
    var args := [Str(SkeletonBase), if className.Some? then Str(className.value) else Undefined];
    assert args[1..][1..] == [];
    assert Kept(args) == [SkeletonBase] + Kept(args[1..]);
    assert className.Some? && className.value != [] ==>
      Kept(args) == [SkeletonBase, className.value] &&
      JoinSpaced([SkeletonBase, className.value]) == SkeletonBase + " " + JoinSpaced([className.value]);
    Cn(args)
  }
}
