/** Paths as text and as components, and whether a relative path stays under the directory it is
    resolved against. */
module Paths {
  import opened Wrappers

  // ---- segments -----------------------------------------------------------------

  /** The text cut at every '/'. */
  function Split(p: string): (segs: seq<string>)
    ensures |segs| > 0
  {
    if p == "" then [""]
    else
      var rest := Split(p[1..]);
      if p[0] == '/' then [""] + rest else [[p[0]] + rest[0]] + rest[1..]
  }

  predicate SlashFree(segs: seq<string>) { forall s <- segs :: '/' !in s }

  lemma {:induction false} SplitSlashFree(p: string)
    ensures SlashFree(Split(p))
    decreases |p|
  {
    if p != "" {
      SplitSlashFree(p[1..]);
      var rest := Split(p[1..]);
      assert rest[0] in rest;
      assert forall s <- rest[1..] :: s in rest;
    }
  }

  /** Each segment with a '/' in front and one '/' after the last. */
  function Wrap(segs: seq<string>): string {
    if segs == [] then "/" else "/" + segs[0] + Wrap(segs[1..])
  }

  lemma SplitCons(p: string)
    requires p != ""
    ensures var rest := Split(p[1..]);
            Split(p) == if p[0] == '/' then [""] + rest else [[p[0]] + rest[0]] + rest[1..]
  {}

  lemma WrapCons(seg: string, rest: seq<string>)
    ensures Wrap([seg] + rest) == "/" + seg + Wrap(rest)
  {
    assert ([seg] + rest)[1..] == rest;
  }

  /** Puts `a` into both sides behind the first character. */
  lemma SameWithin(a: string, x: string, y: string, z: string, w: string, slash: string)
    requires slash + x + y == slash + z + w && |slash| == 1
    ensures slash + (a + x) + y == slash + (a + z) + w
  {
    assert (slash + x + y)[1..] == x + y && (slash + z + w)[1..] == z + w;
    assert slash + (a + x) + y == slash + a + (x + y);
    assert slash + (a + z) + w == slash + a + (z + w);
  }

  lemma {:induction false} WrapSplit(p: string)
    ensures Wrap(Split(p)) == "/" + p + "/"
    decreases |p|
  {
    if p == "" {
      WrapCons("", []);
      assert [""] + [] == [""];
      assert "/" + "" + "/" == "/" + p + "/";
    } else {
      hide Wrap, Split;
      var rest := Split(p[1..]);
      SplitCons(p);
      WrapSplit(p[1..]);
      if p[0] == '/' {
        WrapCons("", rest);
        assert "/" + "" + ("/" + p[1..] + "/") == "/" + ("/" + p[1..]) + "/";
        assert p == "/" + p[1..];
      } else {
        WrapCons([p[0]] + rest[0], rest[1..]);
        WrapCons(rest[0], rest[1..]);
        assert rest == [rest[0]] + rest[1..];
        SameWithin([p[0]], rest[0], Wrap(rest[1..]), p[1..], "/", "/");
        assert p == [p[0]] + p[1..];
      }
    }
  }

  lemma JoinCons(a: string, sep: string, b: string)
    requires a != ""
    ensures (a + sep + b)[0] == a[0] && (a + sep + b)[1..] == a[1..] + sep + b
  {}

  /** Prepending to the first segment of a list that is cut in two. */
  lemma HeadJoin(c: char, x: seq<string>, y: seq<string>)
    requires x != []
    ensures [[c] + (x + y)[0]] + (x + y)[1..] == ([[c] + x[0]] + x[1..]) + y
  {
    assert (x + y)[1..] == x[1..] + y;
  }

  lemma {:induction false} SplitJoin(a: string, b: string)
    ensures Split(a + "/" + b) == Split(a) + Split(b)
    decreases |a|
  {
    SplitEmpty();
    hide Split;
    SplitCons(a + "/" + b);
    if a == "" {
      assert a + "/" + b == ['/'] + b;
    } else {
      SplitCons(a);
      JoinCons(a, "/", b);
      SplitJoin(a[1..], b);
      HeadJoin(a[0], Split(a[1..]), Split(b));
      assert [""] + (Split(a[1..]) + Split(b)) == ([""] + Split(a[1..])) + Split(b);
    }
  }

  lemma SplitEmpty()
    ensures Split("") == [""]
  {}

  // ---- components ---------------------------------------------------------------

  datatype Component = RootDir | CurDir | ParentDir | Normal(name: string)

  /** The components of segment `i` on: empty segments vanish, and so does "." unless it is the
      very first segment. */
  function From(segs: seq<string>, i: nat): seq<Component>
    requires i <= |segs|
    decreases |segs| - i
  {
    if i == |segs| then []
    else
      var s := segs[i];
      (if s == "" || (s == "." && i > 0) then []
       else if s == "." then [CurDir]
       else if s == ".." then [ParentDir]
       else [Normal(s)]) + From(segs, i + 1)
  }

  predicate IsAbsolute(p: string) { p != "" && p[0] == '/' }

  function Components(p: string): seq<Component> {
    (if IsAbsolute(p) then [RootDir] else []) + From(Split(p), 0)
  }

  /** Component-wise: whole components, not characters. */
  predicate StartsWith(p: string, base: string) { Components(base) <= Components(p) }

  /** A name that is one ordinary component. */
  predicate PlainName(name: string) { '/' !in name && name != "" && name != "." && name != ".." }

  lemma {:induction false} SplitName(name: string)
    requires '/' !in name
    ensures Split(name) == [name]
    decreases |name|
  {
    if name != "" {
      assert name[0] in name && forall c <- name[1..] :: c in name;
      SplitName(name[1..]);
      assert name == [name[0]] + name[1..];
    }
  }

  lemma {:induction false} FromSnoc(segs: seq<string>, name: string, i: nat)
    requires PlainName(name) && i <= |segs|
    ensures From(segs + [name], i) == From(segs, i) + [Normal(name)]
    decreases |segs| - i
  {
    if i == |segs| {
      assert From(segs + [name], i + 1) == [];
    } else {
      FromSnoc(segs, name, i + 1);
    }
  }

  lemma ComponentsJoin(p: string, name: string)
    requires IsAbsolute(p) && PlainName(name)
    ensures Components(p + "/" + name) == Components(p) + [Normal(name)]
  {
    hide Split, From;
    SplitJoin(p, name);
    SplitName(name);
    FromSnoc(Split(p), name, 0);
  }

  lemma TopComponents(name: string)
    requires PlainName(name)
    ensures Components("/" + name) == [RootDir, Normal(name)]
  {
    SplitEmpty();
    SplitName(name);
    assert "" + "/" + name == "/" + name;
    SplitJoin("", name);
    FromSnoc([""], name, 0);
    assert From([""], 0) == [];
  }

  // ---- staying under a root --------------------------------------------------------

  /** Follows the components from a directory stack; `None` once it would leave the root. */
  function Resolve(stack: seq<string>, cs: seq<Component>): Option<seq<string>>
    decreases |cs|
  {
    if cs == [] then Some(stack)
    else
      match cs[0]
      case Normal(n) => Resolve(stack + [n], cs[1..])
      case CurDir => Resolve(stack, cs[1..])
      case ParentDir => if stack == [] then None else Resolve(stack[..|stack| - 1], cs[1..])
      case RootDir => None
  }

  function Depth(cs: seq<Component>): int {
    if cs == [] then 0
    else
      Depth(cs[..|cs| - 1]) + (match cs[|cs| - 1]
                               case Normal(_) => 1
                               case ParentDir => -1
                               case _ => 0)
  }

  /** Every prefix has at least as many names as steps up, and there is no root in it. */
  predicate NeverAbove(cs: seq<Component>) {
    RootDir !in cs && forall k | 0 <= k <= |cs| :: Depth(cs[..k]) >= 0
  }

  const I32_BOUND: int := 0x8000_0000

  /** 32-bit signed wrap-around. */
  function Wrap32(n: int): int { (n + I32_BOUND) % (2 * I32_BOUND) - I32_BOUND }

  /** Whether `p` counts as inside `root`: by its components if it is absolute, and by its depth at
      every step if it is relative. */
  method IsUnder(p: string, root: string) returns (under: bool)
    ensures IsAbsolute(p) ==> (under <==> StartsWith(p, root))
    ensures !IsAbsolute(p) && |Components(p)| < I32_BOUND ==> (under <==> NeverAbove(Components(p)))
  {
    hide Components, NeverAbove;
    if IsAbsolute(p) {
      return StartsWith(p, root);
    }
    under := StaysInside(Components(p));
  }

  method StaysInside(cs: seq<Component>) returns (inside: bool)
    ensures |cs| < I32_BOUND ==> (inside <==> NeverAbove(cs))
  {
    hide NeverAbove, Depth, Wrap32;
    var depth := 0;
    DepthEmpty();
    for i := 0 to |cs|
      invariant |cs| < I32_BOUND ==> NeverAbove(cs[..i]) && depth == Depth(cs[..i]) && 0 <= depth <= i
    {
      NextDepth(cs, i);
      WrapSmall(depth + 1);
      WrapSmall(depth - 1);
      match cs[i] {
        case Normal(_) => depth := Wrap32(depth + 1);
        case CurDir =>
        case ParentDir =>
          depth := Wrap32(depth - 1);
          if depth < 0 {
            return false;
          }
        case RootDir => return false;
      }
    }
    assert cs[..|cs|] == cs;
    inside := true;
  }

  lemma WrapSmall(n: int)
    ensures -I32_BOUND <= n < I32_BOUND ==> Wrap32(n) == n
  {}

  lemma DepthEmpty()
    ensures Depth([]) == 0 && NeverAbove([])
  {
    var none: seq<Component> := [];
    assert forall k | 0 <= k <= |none| :: none[..k] == [];
  }

  /** One component further; once a prefix goes wrong the whole does. */
  lemma NextDepth(cs: seq<Component>, i: nat)
    requires i < |cs|
    ensures Depth(cs[..i + 1]) == Depth(cs[..i]) + (match cs[i]
                                                    case Normal(_) => 1
                                                    case ParentDir => -1
                                                    case _ => 0)
    ensures NeverAbove(cs[..i + 1]) <==> NeverAbove(cs[..i]) && cs[i] != RootDir && Depth(cs[..i + 1]) >= 0
    ensures !NeverAbove(cs[..i + 1]) ==> !NeverAbove(cs)
  {
    assert cs[..i + 1] == cs[..i] + [cs[i]] && cs[..i + 1][..i] == cs[..i];
    NeverAboveSnoc(cs[..i], cs[i]);
    if NeverAbove(cs) {
      assert forall c <- cs[..i + 1] :: c in cs;
      var front := cs[..i + 1];
      forall k | 0 <= k <= |front| ensures Depth(front[..k]) >= 0 { assert front[..k] == cs[..k]; }
    }
  }

  /** The depth test says exactly that following the path step by step never leaves the root, and
      the depth is then how far below the root it ends. */
  lemma {:induction false} NeverAboveIffResolves(cs: seq<Component>)
    ensures NeverAbove(cs) <==> Resolve([], cs).Some?
    ensures Resolve([], cs).Some? ==> |Resolve([], cs).value| == Depth(cs)
    decreases |cs|
  {
    if cs == [] {
      assert forall k | 0 <= k <= |cs| :: cs[..k] == [];
    } else {
      var n := |cs| - 1;
      NeverAboveIffResolves(cs[..n]);
      NeverAboveSnoc(cs[..n], cs[n]);
      ResolveSnoc([], cs[..n], cs[n]);
      assert cs == cs[..n] + [cs[n]];
    }
  }

  lemma NeverAboveSnoc(cs: seq<Component>, c: Component)
    ensures NeverAbove(cs + [c]) <==> NeverAbove(cs) && c != RootDir && Depth(cs + [c]) >= 0
  {
    var more := cs + [c];
    assert more[..|more|] == more && c in more && forall d <- cs :: d in more;
    assert forall k | 0 <= k <= |cs| :: more[..k] == cs[..k];
  }

  lemma {:induction false} ResolveSnoc(stack: seq<string>, cs: seq<Component>, c: Component)
    ensures Resolve(stack, cs + [c]) ==
            (if Resolve(stack, cs).None? then None else Resolve(Resolve(stack, cs).value, [c]))
    decreases |cs|
  {
    if cs == [] {
      assert cs + [c] == [c];
    } else {
      assert (cs + [c])[1..] == cs[1..] + [c];
      match cs[0]
      case Normal(n) => ResolveSnoc(stack + [n], cs[1..], c);
      case CurDir => ResolveSnoc(stack, cs[1..], c);
      case ParentDir => if stack != [] { ResolveSnoc(stack[..|stack| - 1], cs[1..], c); }
      case RootDir =>
    }
  }
}
