/**
 * Path sanitising.  Three passes over the characters of a URL path; what they do is said in
 * terms of the path's segments, the pieces between slashes.
 */
module Sanitise {
  import opened CStrings

  // ----- the three passes over characters

  /** The text starts with the word between two slashes. */
  predicate Starts(s: string, w: string) {
    |s| >= |w| + 2 && s[0] == '/' && s[1..|w| + 1] == w && s[|w| + 1] == '/'
  }

  /** The first two passes: w is empty in the one and a dot in the other. */
  function Drop(s: string, w: string): string
    decreases |s|
  {
    if s == "" then ""
    else if Starts(s, w) then Drop(s[|w| + 1..], w)
    else [s[0]] + Drop(s[1..], w)
  }

  /** The third pass: `last` is where the latest slash was written. */
  function Climb(s: string, out: string, last: nat): string
    requires last <= |out|
    decreases |s|
  {
    if s == "" then out
    else if Starts(s, "..") then Climb(s[3..], out[..last], last)
    else Climb(s[1..], out + [s[0]], if s[0] == '/' then |out| else last)
  }

  function Sanitise(s: string): string {
    Climb(Drop(Drop(s, ""), "."), "", 0)
  }

  /** The word does not stand between slashes anywhere in the text. */
  ghost predicate Free(s: string, w: string) {
    forall i :: 0 <= i <= |s| ==> !Starts(s[i..], w)
  }

  ghost predicate IsClean(s: string) {
    Free(s, "") && Free(s, ".") && Free(s, "..")
  }

  // ----- segments

  predicate Plain(a: string) {
    '/' !in a
  }

  ghost predicate AllPlain(segs: seq<string>) {
    forall a :: a in segs ==> Plain(a)
  }

  function Tail(rest: seq<string>): string {
    if rest == [] then "" else "/" + rest[0] + Tail(rest[1..])
  }

  function Join(segs: seq<string>): string
    requires segs != []
  {
    segs[0] + Tail(segs[1..])
  }

  function Split(s: string): (r: seq<string>)
    ensures r != []
  {
    if s == "" then [""]
    else if s[0] == '/' then [""] + Split(s[1..])
    else var r := Split(s[1..]); [[s[0]] + r[0]] + r[1..]
  }

  /** Without the segments equal to w, the last one kept. */
  function Without(rest: seq<string>, w: string): seq<string> {
    if |rest| <= 1 then rest
    else (if rest[0] == w then [] else [rest[0]]) + Without(rest[1..], w)
  }

  /** One segment up; above the first there is the empty one. */
  function Parent(done: seq<string>): (r: seq<string>)
    requires done != []
    ensures r != []
  {
    if |done| == 1 then [""] else done[..|done| - 1]
  }

  /** ".." goes to the parent, except that a run of them goes up only once. */
  function Resolve(rest: seq<string>, done: seq<string>, up: bool): (r: seq<string>)
    requires done != []
    ensures r != []
    decreases |rest|
  {
    if |rest| <= 1 then done + rest
    else if rest[0] == ".." then Resolve(rest[1..], if up then done else Parent(done), true)
    else Resolve(rest[1..], done + [rest[0]], false)
  }

  /** The first segment and the last are kept as they are; between them "" and "." go and ".." goes up. */
  function Resolved(segs: seq<string>): (r: seq<string>)
    requires segs != []
    ensures r != []
  {
    Resolve(Without(Without(segs[1..], ""), "."), [segs[0]], false)
  }

  // ----- characters and segments

  lemma JoinUnder(r: seq<string>)
    requires r != [] && AllPlain(r)
    ensures Join([""] + r) == "/" + Join(r) && AllPlain([""] + r)
  {
    assert ([""] + r)[1..] == r;
    assert "" + Tail(r) == "/" + Join(r);
  }

  lemma JoinFirst(c: char, r: seq<string>)
    requires r != [] && AllPlain(r) && c != '/'
    ensures Join([[c] + r[0]] + r[1..]) == [c] + Join(r) && AllPlain([[c] + r[0]] + r[1..])
  {
    var s := [[c] + r[0]] + r[1..];
    assert s[1..] == r[1..] && Plain(r[0]);
    assert [c] + r[0] + Tail(r[1..]) == [c] + (r[0] + Tail(r[1..]));
    forall a | a in s ensures Plain(a) {
      assert a == [c] + r[0] || a in r;
    }
  }

  lemma {:induction false} SplitJoin(s: string)
    ensures Join(Split(s)) == s && AllPlain(Split(s))
    ensures s != "" && s[0] == '/' ==> |Split(s)| > 1 && Split(s)[0] == ""
    decreases |s|
  {
    if s == "" {
      assert [""][1..] == [];
    } else {
      var r := Split(s[1..]);
      SplitJoin(s[1..]);
      hide Join, AllPlain;
      if s[0] == '/' {
        JoinUnder(r);
      } else {
        JoinFirst(s[0], r);
      }
    }
  }

  lemma {:induction false} TailConcat(a: seq<string>, b: seq<string>)
    ensures Tail(a + b) == Tail(a) + Tail(b)
    decreases |a|
  {
    if a == [] {
      assert a + b == b;
    } else {
      assert (a + b)[1..] == a[1..] + b;
      TailConcat(a[1..], b);
      assert "/" + a[0] + (Tail(a[1..]) + Tail(b)) == Tail(a) + Tail(b);
    }
  }

  lemma {:induction false} JoinSnoc(segs: seq<string>, a: string)
    requires segs != []
    ensures Join(segs + [a]) == Join(segs) + "/" + a
    decreases |segs|
  {
    var rest := segs[1..];
    assert (segs + [a])[1..] == rest + [a];
    TailConcat(rest, [a]);
    assert [a][1..] == [];
    assert Tail([a]) == "/" + a + "";
    assert segs[0] + (Tail(rest) + ("/" + a)) == Join(segs) + "/" + a;
  }

  lemma StartsSegment(a: string, z: string, w: string)
    requires Plain(a) && Plain(w) && (z == "" || z[0] == '/')
    ensures Starts("/" + a + z, w) <==> z != "" && a == w
  {
    var t := "/" + a + z;
    assert t[1..|a| + 1] == a;
  }

  /** "/w/" is at the front exactly when w is a segment with another one after it. */
  lemma StartsTail(rest: seq<string>, w: string)
    requires AllPlain(rest) && Plain(w)
    ensures Starts(Tail(rest), w) <==> |rest| >= 2 && rest[0] == w
  {
    if rest != [] {
      StartsSegment(rest[0], Tail(rest[1..]), w);
    }
  }

  lemma {:induction false} DropPlain(a: string, t: string, w: string)
    requires Plain(a)
    ensures Drop(a + t, w) == a + Drop(t, w)
    decreases |a|
  {
    if a == "" {
      assert a + t == t;
    } else {
      assert (a + t)[1..] == a[1..] + t;
      DropPlain(a[1..], t, w);
    }
  }

  lemma {:induction false} ClimbPlain(a: string, t: string, out: string, last: nat)
    requires Plain(a) && last <= |out|
    ensures Climb(a + t, out, last) == Climb(t, out + a, last)
    decreases |a|
  {
    if a == "" {
      assert a + t == t && out + a == out;
    } else {
      assert (a + t)[1..] == a[1..] + t;
      assert out + [a[0]] + a[1..] == out + a;
      ClimbPlain(a[1..], t, out + [a[0]], last);
    }
  }

  lemma {:induction false} DropTail(rest: seq<string>, w: string)
    requires AllPlain(rest) && Plain(w)
    ensures Drop(Tail(rest), w) == Tail(Without(rest, w)) && AllPlain(Without(rest, w))
    decreases |rest|
  {
    if rest != [] {
      var a, more := rest[0], rest[1..];
      var t := Tail(rest);
      StartsTail(rest, w);
      DropTail(more, w);
      assert t == "/" + a + Tail(more);
      if |rest| >= 2 && a == w {
        assert t[|w| + 1..] == Tail(more);
        assert [] + Without(more, w) == Without(more, w);
      } else {
        assert t[1..] == a + Tail(more);
        DropPlain(a, Tail(more), w);
        assert Without(rest, w) == [a] + Without(more, w);
        assert ([a] + Without(more, w))[1..] == Without(more, w);
      }
    }
  }

  /** A pass of the first kind drops the segments equal to w between the first and the last. */
  lemma DropSegments(segs: seq<string>, w: string)
    requires segs != [] && AllPlain(segs) && Plain(w)
    ensures var r := [segs[0]] + Without(segs[1..], w);
            AllPlain(r) && Drop(Join(segs), w) == Join(r)
  {
    DropTail(segs[1..], w);
    DropPlain(segs[0], Tail(segs[1..]), w);
    assert ([segs[0]] + Without(segs[1..], w))[1..] == Without(segs[1..], w);
  }

  lemma JoinParent(done: seq<string>)
    requires done != []
    ensures var n := |Join(Parent(done))|;
            n <= |Join(done)| && Join(done)[..n] == Join(Parent(done))
  {
    if |done| > 1 {
      var n := |done| - 1;
      assert done == done[..n] + [done[n]];
      JoinSnoc(done[..n], done[n]);
    } else {
      assert Join([""]) == "" + Tail([""][1..]) == "";
    }
  }

  lemma {:induction false} ClimbSegments(rest: seq<string>, done: seq<string>, up: bool)
    requires done != [] && AllPlain(rest)
    ensures var last := |Join(if up then done else Parent(done))|;
            last <= |Join(done)| && Climb(Tail(rest), Join(done), last) == Join(Resolve(rest, done, up))
    decreases |rest|
  {
    JoinParent(done);
    var out := Join(done);
    var last := |Join(if up then done else Parent(done))|;
    if rest == [] {
      assert done + rest == done;
    } else {
      var a, more, t := rest[0], rest[1..], Tail(rest);
      StartsTail(rest, "..");
      assert t == "/" + a + Tail(more);
      if |rest| >= 2 && a == ".." {
        assert t[3..] == Tail(more) && out[..|out|] == out;
        ClimbSegments(more, if up then done else Parent(done), true);
      } else {
        assert t[1..] == a + Tail(more);
        ClimbPlain(a, Tail(more), out + "/", |out|);
        JoinSnoc(done, a);
        assert Parent(done + [a]) == done;
        ClimbSegments(more, done + [a], false);
        if |rest| == 1 {
          assert rest == [a] && done + [a] + more == done + rest;
        }
      }
    }
  }

  /** The whole of it, segment by segment. */
  lemma SanitiseSegments(segs: seq<string>)
    requires segs != [] && AllPlain(segs)
    ensures Sanitise(Join(segs)) == Join(Resolved(segs))
  {
    var one := [segs[0]] + Without(segs[1..], "");
    DropSegments(segs, "");
    assert one[1..] == Without(segs[1..], "");
    var rest := Without(one[1..], ".");
    DropSegments(one, ".");
    assert ([segs[0]] + rest)[1..] == rest;
    var t := Join([segs[0]] + rest);
    assert t == segs[0] + Tail(rest);
    DropTail(one[1..], ".");
    ClimbPlain(segs[0], Tail(rest), "", 0);
    assert "" + segs[0] == segs[0];
    assert Join([segs[0]]) == segs[0] by {
      assert [segs[0]][1..] == [];
    }
    assert Join([""]) == "" by {
      assert [""][1..] == [];
    }
    ClimbSegments(rest, [segs[0]], false);
  }

  // ----- what sanitising achieves

  /** Nothing is lost but what the two words match: the passes only shorten. */
  lemma {:induction false} DropLength(s: string, w: string)
    ensures |Drop(s, w)| <= |s|
    ensures s != "" ==> Drop(s, w) != "" && Drop(s, w)[0] == s[0]
    decreases |s|
  {
    if s != "" {
      if Starts(s, w) {
        DropLength(s[|w| + 1..], w);
      } else {
        DropLength(s[1..], w);
      }
    }
  }

  lemma {:induction false} ClimbLength(s: string, out: string, last: nat)
    requires last <= |out|
    ensures var r := Climb(s, out, last);
            |r| <= |out| + |s| && (out + s != "" && (out + s)[0] == '/' ==> r != "" && r[0] == '/')
    decreases |s|
  {
    if s == "" {
      assert out + s == out;
    } else if Starts(s, "..") {
      assert last > 0 ==> (out[..last] + s[3..])[0] == (out + s)[0];
      ClimbLength(s[3..], out[..last], last);
    } else {
      assert out + [s[0]] + s[1..] == out + s;
      ClimbLength(s[1..], out + [s[0]], if s[0] == '/' then |out| else last);
    }
  }

  /** The result is no longer than the path and keeps its leading slash. */
  lemma SanitiseLength(s: string)
    ensures |Sanitise(s)| <= |s|
    ensures s != "" && s[0] == '/' ==> Sanitise(s) != "" && Sanitise(s)[0] == '/'
  {
    var one := Drop(s, "");
    var two := Drop(one, ".");
    DropLength(s, "");
    DropLength(one, ".");
    ClimbLength(two, "", 0);
    assert "" + two == two;
  }

  lemma {:induction false} FreeTail(rest: seq<string>, w: string)
    requires AllPlain(rest) && Plain(w)
    requires forall i :: 0 <= i < |rest| - 1 ==> rest[i] != w
    ensures Free(Tail(rest), w)
    decreases |rest|
  {
    if rest != [] {
      var a, more, t := rest[0], rest[1..], Tail(rest);
      FreeTail(more, w);
      assert t == "/" + a + Tail(more) && a in rest;
      forall i | 0 <= i <= |t| ensures !Starts(t[i..], w) {
        if i == 0 {
          StartsTail(rest, w);
          assert t[0..] == t;
        } else if i <= |a| {
          assert t[i..][0] == a[i - 1] && a[i - 1] in a;
        } else {
          assert t[i..] == Tail(more)[i - |a| - 1..];
          assert !Starts(Tail(more)[i - |a| - 1..], w);
        }
      }
    }
  }

  /** Without w between the first and the last segment, "/w/" is nowhere in the text. */
  lemma FreeJoin(segs: seq<string>, w: string)
    requires segs != [] && AllPlain(segs) && Plain(w)
    requires forall i :: 1 <= i < |segs| - 1 ==> segs[i] != w
    ensures Free(Join(segs), w)
  {
    var t, a, rest := Join(segs), segs[0], Tail(segs[1..]);
    FreeTail(segs[1..], w);
    assert a in segs;
    forall i | 0 <= i <= |t| ensures !Starts(t[i..], w) {
      if i < |a| {
        assert t[i..][0] == a[i] && a[i] in a;
      } else {
        assert t[i..] == rest[i - |a|..];
        assert !Starts(rest[i - |a|..], w);
      }
    }
  }

  /** No segment but perhaps the last is w. */
  ghost predicate AllBut(rest: seq<string>, w: string) {
    forall i :: 0 <= i < |rest| - 1 ==> rest[i] != w
  }

  lemma {:induction false} WithoutGone(rest: seq<string>, w: string, v: string)
    ensures var r := Without(rest, w);
            && AllBut(r, w)
            && (AllBut(rest, v) ==> AllBut(r, v))
            && (forall a :: a in r ==> a in rest)
            && (r == [] <==> rest == [])
    decreases |rest|
  {
    if |rest| > 1 {
      var more := Without(rest[1..], w);
      WithoutGone(rest[1..], w, v);
      if rest[0] == w {
        assert [] + more == more;
      }
    }
  }

  ghost predicate Inner(a: string) {
    a != "" && a != "." && a != ".."
  }

  lemma {:induction false} ResolveInner(rest: seq<string>, done: seq<string>, up: bool)
    requires done != [] && AllBut(rest, "") && AllBut(rest, ".") && AllPlain(rest) && AllPlain(done)
    requires forall i :: 1 <= i < |done| ==> Inner(done[i])
    ensures var r := Resolve(rest, done, up);
            AllPlain(r) && forall i :: 1 <= i < |r| - 1 ==> Inner(r[i])
    decreases |rest|
  {
    if |rest| > 1 {
      var more := rest[1..];
      assert forall i :: 0 <= i < |more| ==> more[i] == rest[i + 1];
      if rest[0] == ".." {
        ResolveInner(more, if up then done else Parent(done), true);
      } else {
        ResolveInner(more, done + [rest[0]], false);
      }
    }
  }

  /** The result holds no "//", no "/./" and no "/../". */
  lemma SanitiseClean(s: string)
    ensures IsClean(Sanitise(s))
  {
    hide Sanitise, Join, Resolve;
    var segs := Split(s);
    SplitJoin(s);
    SanitiseSegments(segs);
    var one := Without(segs[1..], "");
    var two := Without(one, ".");
    WithoutGone(segs[1..], "", "");
    WithoutGone(one, ".", "");
    ResolveInner(two, [segs[0]], false);
    var r := Resolved(segs);
    assert forall i :: 1 <= i < |r| - 1 ==> Inner(r[i]);
    FreeJoin(r, "");
    FreeJoin(r, ".");
    FreeJoin(r, "..");
  }

  lemma FreeRest(s: string, w: string)
    requires Free(s, w) && s != ""
    ensures !Starts(s, w) && Free(s[1..], w)
  {
    assert s[0..] == s;
    forall i | 0 <= i <= |s| - 1 ensures !Starts(s[1..][i..], w) {
      assert s[1..][i..] == s[i + 1..];
    }
  }

  lemma {:induction false} DropNothing(s: string, w: string)
    requires Free(s, w)
    ensures Drop(s, w) == s
    decreases |s|
  {
    if s != "" {
      FreeRest(s, w);
      DropNothing(s[1..], w);
    }
  }

  lemma {:induction false} ClimbNothing(s: string, out: string, last: nat)
    requires Free(s, "..") && last <= |out|
    ensures Climb(s, out, last) == out + s
    decreases |s|
  {
    if s == "" {
      assert out + s == out;
    } else {
      FreeRest(s, "..");
      assert out + [s[0]] + s[1..] == out + s;
      ClimbNothing(s[1..], out + [s[0]], if s[0] == '/' then |out| else last);
    }
  }

  /** Sanitising leaves alone exactly the paths without "//", "/./" and "/../". */
  lemma SanitiseFixes(s: string)
    ensures Sanitise(s) == s <==> IsClean(s)
  {
    SanitiseClean(s);
    if IsClean(s) {
      DropNothing(s, "");
      DropNothing(s, ".");
      ClimbNothing(s, "", 0);
      assert "" + s == s;
    }
  }

  /** Sanitising twice is sanitising once. */
  lemma SanitiseIdempotent(s: string)
    ensures Sanitise(Sanitise(s)) == Sanitise(s)
  {
    hide Sanitise;
    SanitiseClean(s);
    SanitiseFixes(Sanitise(s));
  }

  // ----- runs of ".."

  /** Going up once for every "..". */
  function ResolveAll(rest: seq<string>, done: seq<string>): (r: seq<string>)
    requires done != []
    ensures r != []
    decreases |rest|
  {
    if |rest| <= 1 then done + rest
    else ResolveAll(rest[1..], if rest[0] == ".." then Parent(done) else done + [rest[0]])
  }

  /** At every ".." that follows another one, the path is already at the top. */
  predicate Agreeing(rest: seq<string>, done: seq<string>, up: bool)
    requires done != []
    decreases |rest|
  {
    if |rest| <= 1 then true
    else if rest[0] == ".." then
      (up ==> done == [""]) && Agreeing(rest[1..], if up then done else Parent(done), true)
    else Agreeing(rest[1..], done + [rest[0]], false)
  }

  /** The third pass never goes below `base` again, and the path that went up more often is shorter or has another top. */
  ghost predicate Apart(base: seq<string>, d: seq<string>, e: seq<string>, up: bool) {
    && base != [] && e != [] && base <= d && (up || |base| < |d|)
    && ((|base| > 1 && |e| < |d|) || (d[0] != "" && e[0] == ""))
  }

  lemma {:induction false} NeverMeet(rest: seq<string>, base: seq<string>, d: seq<string>, e: seq<string>, up: bool)
    requires Apart(base, d, e, up)
    ensures Resolve(rest, d, up) != ResolveAll(rest, e)
    decreases |rest|
  {
    if |rest| <= 1 {
      assert (d + rest)[0] == d[0] && (e + rest)[0] == e[0];
    } else if rest[0] == ".." {
      NeverMeet(rest[1..], base, if up then d else Parent(d), Parent(e), true);
    } else {
      NeverMeet(rest[1..], base, d + [rest[0]], e + [rest[0]], false);
    }
  }

  /** The third pass goes up once for every ".." iff every further one of a run finds the path at the top. */
  lemma {:induction false} ResolvesAll(rest: seq<string>, done: seq<string>, up: bool)
    requires done != []
    ensures Resolve(rest, done, up) == ResolveAll(rest, done) <==> Agreeing(rest, done, up)
    decreases |rest|
  {
    if |rest| > 1 {
      var more := rest[1..];
      if rest[0] != ".." {
        ResolvesAll(more, done + [rest[0]], false);
      } else if !up || done == [""] {
        ResolvesAll(more, Parent(done), true);
      } else {
        NeverMeet(more, done, done, Parent(done), true);
      }
    }
  }

  lemma {:induction false} SplitPlain(a: string)
    requires Plain(a)
    ensures Split(a) == [a]
    decreases |a|
  {
    if a != "" {
      SplitPlain(a[1..]);
      assert [a[0]] + a[1..] == a;
    }
  }

  lemma {:induction false} SplitSlash(a: string, t: string)
    requires Plain(a)
    ensures Split(a + "/" + t) == [a] + Split(t)
    decreases |a|
  {
    if a == "" {
      assert (a + "/" + t)[1..] == t;
    } else {
      assert (a + "/" + t)[1..] == a[1..] + "/" + t;
      SplitSlash(a[1..], t);
      assert [a[0]] + a[1..] == a;
    }
  }

  /** A path has only one reading in segments. */
  lemma {:induction false} SplitOfJoin(segs: seq<string>)
    requires segs != [] && AllPlain(segs)
    ensures Split(Join(segs)) == segs
    decreases |segs|
  {
    var a, rest := segs[0], segs[1..];
    assert a in segs;
    if rest == [] {
      assert Join(segs) == a + "" == a;
      SplitPlain(a);
    } else {
      assert Join(segs) == a + "/" + Join(rest) by {
        assert a + ("/" + rest[0] + Tail(rest[1..])) == a + "/" + (rest[0] + Tail(rest[1..]));
      }
      SplitSlash(a, Join(rest));
      SplitOfJoin(rest);
    }
  }

  lemma {:induction false} ResolvePlain(rest: seq<string>, done: seq<string>, up: bool)
    requires done != [] && AllPlain(rest) && AllPlain(done)
    ensures AllPlain(Resolve(rest, done, up)) && AllPlain(ResolveAll(rest, done))
    decreases |rest|
  {
    if |rest| > 1 {
      var more, next := rest[1..], if rest[0] == ".." then Parent(done) else done + [rest[0]];
      ResolvePlain(more, next, rest[0] == "..");
      if up && rest[0] == ".." {
        ResolvePlain(more, done, true);
      }
    }
  }

  /** The segments the third pass is given. */
  function Inside(s: string): seq<string> {
    Without(Without(Split(s)[1..], ""), ".")
  }

  /** The path that goes up once for every "..". */
  function UpEach(s: string): string {
    Join(ResolveAll(Inside(s), [Split(s)[0]]))
  }

  lemma InsidePlain(s: string)
    ensures AllPlain(Inside(s)) && Plain(Split(s)[0])
  {
    SplitJoin(s);
    WithoutGone(Split(s)[1..], "", "");
    WithoutGone(Without(Split(s)[1..], ""), ".", "");
    assert Split(s)[0] in Split(s);
  }

  lemma InsideIs(s: string)
    ensures Resolved(Split(s)) == Resolve(Inside(s), [Split(s)[0]], false)
  {
  }

  /** Of a path: sanitising goes up once for every ".." iff every further one of a run finds the path at the top. */
  lemma GoesUpForEach(s: string)
    ensures Sanitise(s) == UpEach(s) <==> Agreeing(Inside(s), [Split(s)[0]], false)
  {
    var rest, top := Inside(s), [Split(s)[0]];
    InsidePlain(s);
    ResolvePlain(rest, top, false);
    ResolvesAll(rest, top, false);
    hide Resolve, ResolveAll, Sanitise, Join, Inside, Split;
    SplitJoin(s);
    SanitiseSegments(Split(s));
    SplitOfJoin(Resolve(rest, top, false));
    SplitOfJoin(ResolveAll(rest, top));
    assert Resolved(Split(s)) == Resolve(rest, top, false) by {
      InsideIs(s);
    }
  }

  lemma {:induction false} WithoutNothing(rest: seq<string>, w: string)
    requires w !in rest
    ensures Without(rest, w) == rest
    decreases |rest|
  {
    if |rest| > 1 {
      WithoutNothing(rest[1..], w);
    }
  }

  /** The two paths below, segment by segment. */
  lemma RunSegments()
    ensures var rest := ["a", "b", "..", "..", "c"];
            Resolve(rest, [""], false) == ["", "a", "c"] && ResolveAll(rest, [""]) == ["", "c"]
    ensures var rest := ["..", "..", "a"];
            Resolve(rest, [""], false) == ["", "a"] && ResolveAll(rest, [""]) == ["", "a"]
  {
    var rest := ["a", "b", "..", "..", "c"];
    var tail := ["..", "..", "c"];
    assert rest[1..][1..] == tail && tail[1..] == ["..", "c"] && tail[1..][1..] == ["c"];
    var done := [""] + ["a"] + ["b"];
    assert Parent(done) == ["", "a"] && Parent(Parent(done)) == [""];
    var top := ["..", "..", "a"];
    assert top[1..] == ["..", "a"] && top[1..][1..] == ["a"];
  }

  lemma PathOf(rest: seq<string>)
    requires AllPlain(rest) && "" !in rest && "." !in rest
    ensures var s := Join([""] + rest);
            && Sanitise(s) == Join(Resolve(rest, [""], false))
            && UpEach(s) == Join(ResolveAll(rest, [""]))
  {
    var segs := [""] + rest;
    assert segs[1..] == rest;
    SplitOfJoin(segs);
    SanitiseSegments(segs);
    WithoutNothing(rest, "");
    WithoutNothing(rest, ".");
  }

  lemma JoinTwo(a: string)
    ensures Join(["", a]) == "/" + a
  {
    JoinSnoc([""], a);
    assert [""] + [a] == ["", a] && [""][1..] == [] && Join([""]) == "";
  }

  lemma JoinThree(a: string, b: string)
    ensures Join(["", a, b]) == "/" + a + "/" + b
  {
    hide Join;
    JoinTwo(a);
    JoinSnoc(["", a], b);
    assert ["", a] + [b] == ["", a, b];
  }

  lemma LongPath()
    ensures Join([""] + ["a", "b", "..", "..", "c"]) == "/a/b/../../c"
  {
    hide Join;
    var two := ["", "a", "b"];
    JoinThree("a", "b");
    JoinSnoc(two, "..");
    JoinSnoc(two + [".."], "..");
    JoinSnoc(two + [".."] + [".."], "c");
    assert two + [".."] + [".."] + ["c"] == [""] + ["a", "b", "..", "..", "c"];
  }

  lemma ShortPath()
    ensures Join([""] + ["..", "..", "a"]) == "/../../a"
  {
    hide Join;
    JoinThree("..", "..");
    JoinSnoc(["", "..", ".."], "a");
    assert ["", "..", ".."] + ["a"] == [""] + ["..", "..", "a"];
  }

  /** It does not for /a/b/../../c, which becomes /a/c where going up twice gives /c; it does for /../../a. */
  lemma RunsGoUpOnce()
    ensures Sanitise("/a/b/../../c") == "/a/c" && UpEach("/a/b/../../c") == "/c"
    ensures Sanitise("/../../a") == "/a" && UpEach("/../../a") == "/a"
  {
    hide Sanitise, UpEach, Resolve, ResolveAll, Join;
    LongPath();
    ShortPath();
    PathOf(["a", "b", "..", "..", "c"]);
    PathOf(["..", "..", "a"]);
    RunSegments();
    JoinThree("a", "c");
    JoinTwo("c");
    JoinTwo("a");
  }

  // ----- in place

  function Text(buf: seq<char>): string {
    CString(buf, '\0')
  }

  /** What a pass looks at: the text from position i on starts with a slash, the word and a slash. */
  lemma Looks(buf: seq<char>, n: nat, i: nat, w: string)
    requires i < n < |buf| && buf[n] == '\0' && |w| <= 2
    requires '\0' !in w && forall j :: 0 <= j < n ==> buf[j] != '\0'
    ensures Starts(buf[..n][i..], w) <==>
            && buf[i] == '/' && (|w| > 0 ==> i + 1 < |buf| && buf[i + 1] == w[0])
            && (|w| > 1 ==> i + 2 < |buf| && buf[i + 2] == w[1])
            && i + |w| + 1 < |buf| && buf[i + |w| + 1] == '/'
  {
    var t := buf[..n][i..];
    if i + |w| + 1 < n {
      var u := t[1..|w| + 1];
      assert |w| > 0 ==> u[0] == buf[i + 1];
      assert |w| > 1 ==> u[1] == buf[i + 2];
    }
  }

  lemma DropSkip(s: string, i: nat, w: string)
    requires i < |s| && Starts(s[i..], w)
    ensures i + |w| + 1 < |s| && Drop(s[i..], w) == Drop(s[i + |w| + 1..], w)
  {
    assert s[i..][|w| + 1..] == s[i + |w| + 1..];
  }

  lemma DropKeep(s: string, i: nat, w: string, done: string)
    requires i < |s| && !Starts(s[i..], w)
    ensures done + Drop(s[i..], w) == (done + [s[i]]) + Drop(s[i + 1..], w)
  {
    assert s[i..][1..] == s[i + 1..];
    assert done + ([s[i]] + Drop(s[i + 1..], w)) == (done + [s[i]]) + Drop(s[i + 1..], w);
  }

  lemma DropEnd(s: string, i: nat, w: string, done: string)
    requires i == |s|
    ensures done + Drop(s[i..], w) == done
  {
    assert s[i..] == "";
  }

  /** The first pass, in place. */
  method RemoveSlashes(url: array<char>)
    requires '\0' in url[..]
    modifies url
    ensures '\0' in url[..] && Text(url[..]) == Drop(old(Text(url[..])), "")
    ensures forall i :: |old(Text(url[..]))| < i < url.Length ==> url[i] == old(url[i])
  {
    hide Drop, CString, Starts;
    ghost var buf := url[..];
    ghost var n := |Text(buf)|;
    assert '\0' !in buf[..n] && n < |buf|;
    ghost var s := buf[..n];
    var from: nat, to: nat := 0, 0;
    assert s[0..] == s && url[..0] + Drop(s, "") == Drop(s, "");
    while url[from] != '\0'
      invariant to <= from <= n < url.Length
      invariant forall i :: from <= i < url.Length ==> url[i] == buf[i]
      invariant url[..to] + Drop(s[from..], "") == Drop(s, "")
      invariant forall i :: 0 <= i < to ==> url[i] != '\0'
      decreases n - from
    {
      Looks(buf, n, from, "");
      if url[from] == '/' && url[from + 1] == '/' {
        DropSkip(s, from, "");
        from := from + 1;
        continue;
      }
      DropKeep(s, from, "", url[..to]);
      url[to] := url[from];
      to, from := to + 1, from + 1;
    }
    DropEnd(s, from, "", url[..to]);
    url[to] := '\0';
    TerminatedAt(url[..], '\0', to);
  }

  /** The second pass, in place. */
  method RemoveDots(url: array<char>)
    requires '\0' in url[..]
    modifies url
    ensures '\0' in url[..] && Text(url[..]) == Drop(old(Text(url[..])), ".")
    ensures forall i :: |old(Text(url[..]))| < i < url.Length ==> url[i] == old(url[i])
  {
    hide Drop, CString, Starts;
    ghost var buf := url[..];
    ghost var n := |Text(buf)|;
    assert '\0' !in buf[..n] && n < |buf|;
    ghost var s := buf[..n];
    var from: nat, to: nat := 0, 0;
    assert s[0..] == s && url[..0] + Drop(s, ".") == Drop(s, ".");
    while url[from] != '\0'
      invariant to <= from <= n < url.Length
      invariant forall i :: from <= i < url.Length ==> url[i] == buf[i]
      invariant url[..to] + Drop(s[from..], ".") == Drop(s, ".")
      invariant forall i :: 0 <= i < to ==> url[i] != '\0'
      decreases n - from
    {
      Looks(buf, n, from, ".");
      if url[from] == '/' && url[from + 1] == '.' && url[from + 2] == '/' {
        DropSkip(s, from, ".");
        from := from + 2;
        continue;
      }
      DropKeep(s, from, ".", url[..to]);
      url[to] := url[from];
      to, from := to + 1, from + 1;
    }
    DropEnd(s, from, ".", url[..to]);
    url[to] := '\0';
    TerminatedAt(url[..], '\0', to);
  }

  lemma ClimbSkip(s: string, i: nat, out: string, last: nat)
    requires i < |s| && Starts(s[i..], "..") && last <= |out|
    ensures i + 3 < |s| && Climb(s[i..], out, last) == Climb(s[i + 3..], out[..last], last)
  {
    assert s[i..][3..] == s[i + 3..];
  }

  lemma ClimbKeep(s: string, i: nat, out: string, last: nat)
    requires i < |s| && !Starts(s[i..], "..") && last <= |out|
    ensures Climb(s[i..], out, last) == Climb(s[i + 1..], out + [s[i]], if s[i] == '/' then |out| else last)
  {
    assert s[i..][1..] == s[i + 1..];
  }

  lemma ClimbEnd(s: string, i: nat, out: string, last: nat)
    requires i == |s| && last <= |out|
    ensures Climb(s[i..], out, last) == out
  {
    assert s[i..] == "";
  }

  /** The third pass, in place; its write position may move back. */
  method RemoveParents(url: array<char>)
    requires '\0' in url[..]
    modifies url
    ensures '\0' in url[..] && Text(url[..]) == Climb(old(Text(url[..])), "", 0)
    ensures forall i :: |old(Text(url[..]))| < i < url.Length ==> url[i] == old(url[i])
  {
    hide Climb, CString, Starts;
    ghost var buf := url[..];
    ghost var n := |Text(buf)|;
    assert '\0' !in buf[..n] && n < |buf|;
    ghost var s := buf[..n];
    var from: nat, to: nat, last: nat := 0, 0, 0;
    assert s[0..] == s && url[..0] == "";
    while url[from] != '\0'
      invariant last <= to <= from <= n < url.Length
      invariant forall i :: from <= i < url.Length ==> url[i] == buf[i]
      invariant Climb(s[from..], url[..to], last) == Climb(s, "", 0)
      invariant forall i :: 0 <= i < to ==> url[i] != '\0'
      decreases n - from
    {
      Looks(buf, n, from, "..");
      if url[from] == '/' && url[from + 1] == '.' && url[from + 2] == '.' && url[from + 3] == '/' {
        ClimbSkip(s, from, url[..to], last);
        assert url[..to][..last] == url[..last];
        to := last;
        from := from + 3;
        continue;
      }
      ghost var out := url[..to];
      ClimbKeep(s, from, out, last);
      if url[from] == '/' {
        last := to;
      }
      url[to] := url[from];
      to, from := to + 1, from + 1;
      assert url[..to] == out + [s[from - 1]];
    }
    ClimbEnd(s, from, url[..to], last);
    url[to] := '\0';
    TerminatedAt(url[..], '\0', to);
  }

  /** _httpd_sanitiseUrl: the buffer then holds the sanitised path, and nothing beyond the old path was written. */
  method SanitiseUrl(url: array<char>)
    requires '\0' in url[..]
    modifies url
    ensures '\0' in url[..] && Text(url[..]) == Sanitise(old(Text(url[..])))
    ensures forall i :: |old(Text(url[..]))| < i < url.Length ==> url[i] == old(url[i])
  {
    hide Drop, Text;
    ghost var s := Text(url[..]);
    RemoveSlashes(url);
    DropLength(s, "");
    RemoveDots(url);
    DropLength(Drop(s, ""), ".");
    RemoveParents(url);
  }
}
