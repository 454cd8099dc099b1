/**
 The lexical path normalizer used before policy matching: one pass over the segments with a stack.

 The laws of lexical paths hold of it and leave no other result: a backslash separates like a slash, empty and `.`
 segments vanish, `..` takes back the segment before it and nothing at the root, and a path in normal form stays as it
 is.  It is idempotent and compositional: a prefix may be normalized first without changing the outcome, and so may the
 rest, except in one case that is stated exactly.
 */
module PathNormalization {

  type Segment = string

  /** Every backslash read as a slash. */
  function Slashed(path: string): (r: string)
    ensures |r| == |path|
  {
    seq(|path|, i requires 0 <= i < |path| => if path[i] == '\\' then '/' else path[i])
  }

  /** Pieces between slashes: one more than there are slashes, the empty ones included. */
  function Split(s: string): (r: seq<Segment>)
    ensures r != []
  {
    if s == [] then [[]]
    else
      var rest := Split(s[1..]);
      if s[0] == '/' then [[]] + rest else [[s[0]] + rest[0]] + rest[1..]
  }

  function Join(segments: seq<Segment>): string {
    if segments == [] then []
    else if |segments| == 1 then segments[0]
    else segments[0] + "/" + Join(segments[1..])
  }

  /** What one segment does to the stack. */
  function Step(absolute: bool, stack: seq<Segment>, segment: Segment): seq<Segment> {
    if segment == [] || segment == "." then stack
    else if segment == ".." then
      if stack != [] && stack[|stack| - 1] != ".." then stack[..|stack| - 1]
      else if !absolute then stack + [segment]
      else stack
    else stack + [segment]
  }

  function Resolve(absolute: bool, stack: seq<Segment>, segments: seq<Segment>): seq<Segment>
    decreases |segments|
  {
    if segments == [] then stack else Resolve(absolute, Step(absolute, stack, segments[0]), segments[1..])
  }

  function Render(absolute: bool, stack: seq<Segment>): string {
    if absolute then "/" + Join(stack)
    else if stack == [] then "."
    else Join(stack)
  }

  predicate IsAbsolute(s: string) { s != [] && s[0] == '/' }

  function Normalize(path: string): string {
    var s := Slashed(path);
    Render(IsAbsolute(s), Resolve(IsAbsolute(s), [], Split(s)))
  }

  method NormalizePathForPolicy(path: string) returns (r: string)
    ensures r == Normalize(path)
  {
    var s := Slashed(path);
    var absolute, pieces := IsAbsolute(s), Split(s);
    var segments: seq<Segment> := [];
    for i := 0 to |pieces|
      invariant Resolve(absolute, segments, pieces[i..]) == Resolve(absolute, [], pieces)
    {
      assert pieces[i..][1..] == pieces[i + 1..];
      var segment := pieces[i];
      if segment == [] || segment == "." { continue; }
      if segment == ".." {
        if segments != [] && segments[|segments| - 1] != ".." {
          segments := segments[..|segments| - 1];
          continue;
        }
        if !absolute { segments := segments + [segment]; }
        continue;
      }
      segments := segments + [segment];
    }
    if absolute {
      r := if segments == [] then "/" else "/" + Join(segments);
    } else {
      r := if segments == [] then "." else Join(segments);
    }
  }

  // -------------------------------------------------------------------------
  // Shape

  /** A segment that names something, or goes up. */
  predicate IsPlain(segment: Segment) {
    segment != [] && segment != "." && '/' !in segment && '\\' !in segment
  }

  /** Plain segments, in which going up comes only first, and never in an absolute path. */
  ghost predicate Clean(absolute: bool, stack: seq<Segment>) {
    && (forall i | 0 <= i < |stack| :: IsPlain(stack[i]))
    && (forall i | 0 <= i < |stack| && stack[i] == ".." :: !absolute && forall j | 0 <= j < i :: stack[j] == "..")
  }

  ghost predicate NoSlash(segments: seq<Segment>) {
    forall i | 0 <= i < |segments| :: '/' !in segments[i] && '\\' !in segments[i]
  }

  lemma {:induction false} SplitHasNoSlash(s: string)
    requires '\\' !in s
    ensures NoSlash(Split(s))
  {
    if s != [] { SplitHasNoSlash(s[1..]); }
  }

  lemma {:induction false} ResolveIsClean(absolute: bool, stack: seq<Segment>, segments: seq<Segment>)
    requires Clean(absolute, stack) && NoSlash(segments)
    ensures Clean(absolute, Resolve(absolute, stack, segments))
    decreases |segments|
  {
    if segments != [] { ResolveIsClean(absolute, Step(absolute, stack, segments[0]), segments[1..]); }
  }

  /** The segments of the result are clean. */
  lemma NormalizeIsClean(path: string)
    ensures var s := Slashed(path);
            exists stack :: Clean(IsAbsolute(s), stack) && Normalize(path) == Render(IsAbsolute(s), stack)
  {
    var s := Slashed(path);
    SplitHasNoSlash(s);
    ResolveIsClean(IsAbsolute(s), [], Split(s));
  }

  // -------------------------------------------------------------------------
  // Algebra

  lemma {:induction false} SplitAppend(a: string, b: string)
    ensures Split(a + "/" + b) == Split(a) + Split(b)
  {
    hide Split;
    var whole, tail := a + "/" + b, Split(b);
    SplitStep(whole);
    SplitStep(a);
    if a == [] {
      assert whole[1..] == b;
    } else {
      SplitAppend(a[1..], b);
      assert whole[0] == a[0] && whole[1..] == a[1..] + "/" + b;
      var rest := Split(a[1..]);
      assert (rest + tail)[1..] == rest[1..] + tail && (rest + tail)[0] == rest[0];
    }
  }

  lemma SplitStep(s: string)
    ensures s == [] ==> Split(s) == [[]]
    ensures s != [] && s[0] == '/' ==> Split(s) == [[]] + Split(s[1..])
    ensures s != [] && s[0] != '/' ==> Split(s) == [[s[0]] + Split(s[1..])[0]] + Split(s[1..])[1..]
  {
  }

  lemma {:induction false} SplitPlain(s: string)
    requires '/' !in s
    ensures Split(s) == [s]
  {
    if s != [] {
      SplitPlain(s[1..]);
      assert [s[0]] + s[1..] == s;
    }
  }

  /** Splitting undoes joining. */
  lemma {:induction false} SplitJoin(segments: seq<Segment>)
    requires segments != [] && NoSlash(segments)
    ensures Split(Join(segments)) == segments
  {
    SplitPlain(segments[0]);
    if |segments| > 1 {
      SplitAppend(segments[0], Join(segments[1..]));
      SplitJoin(segments[1..]);
    }
  }

  lemma ResolveStep(absolute: bool, stack: seq<Segment>, segments: seq<Segment>)
    ensures Resolve(absolute, stack, segments) ==
            if segments == [] then stack else Resolve(absolute, Step(absolute, stack, segments[0]), segments[1..])
  {
  }

  lemma {:induction false} ResolveAppend(absolute: bool, stack: seq<Segment>, a: seq<Segment>, b: seq<Segment>)
    ensures Resolve(absolute, stack, a + b) == Resolve(absolute, Resolve(absolute, stack, a), b)
    decreases |a|
  {
    hide Resolve, Step;
    ResolveStep(absolute, stack, a);
    ResolveStep(absolute, stack, a + b);
    if a == [] {
      assert [] + b == b;
    } else {
      ResolveAppend(absolute, Step(absolute, stack, a[0]), a[1..], b);
      assert (a + b)[0] == a[0] && (a + b)[1..] == a[1..] + b;
    }
  }

  /** A clean stack is rebuilt from its own segments. */
  lemma {:induction false} ResolveClean(absolute: bool, stack: seq<Segment>, segments: seq<Segment>)
    requires Clean(absolute, stack + segments)
    ensures Resolve(absolute, stack, segments) == stack + segments
    decreases |segments|
  {
    if segments != [] {
      var whole, i := stack + segments, |stack|;
      assert IsPlain(whole[i]) && whole[i] == segments[0];
      assert stack != [] ==> stack[|stack| - 1] == whole[i - 1];
      assert Step(absolute, stack, segments[0]) == stack + [segments[0]];
      assert stack + [segments[0]] + segments[1..] == whole;
      ResolveClean(absolute, stack + [segments[0]], segments[1..]);
    }
  }

  lemma {:induction false} JoinHasNoBackslash(segments: seq<Segment>)
    requires NoSlash(segments)
    ensures '\\' !in Join(segments)
  {
    if |segments| > 1 { JoinHasNoBackslash(segments[1..]); }
  }

  lemma EmptyReads(absolute: bool)
    ensures var s := Render(absolute, []);
            s != [] && Slashed(s) == s && IsAbsolute(s) == absolute && Resolve(absolute, [], Split(s)) == []
  {
    if absolute {
      assert Render(true, []) == "/" == [] + "/" + [];
      SplitPlain([]);
      SplitAppend([], []);
      LeadingEmpty(true, [[]]);
    } else {
      SplitPlain(".");
    }
  }

  /** What is read back from a joined, clean, non-empty stack. */
  lemma JoinedReads(absolute: bool, stack: seq<Segment>)
    requires Clean(absolute, stack) && stack != []
    ensures var s := Join(stack); s != [] && s[0] != '/' && '\\' !in s && Split(s) == stack
  {
    JoinHasNoBackslash(stack);
    SplitJoin(stack);
    assert IsPlain(stack[0]) && Join(stack)[0] == stack[0][0];
  }

  lemma SlashedSame(s: string)
    requires '\\' !in s
    ensures Slashed(s) == s
  {
  }

  /** A clean stack survives rendering and reading back. */
  lemma RenderReads(absolute: bool, stack: seq<Segment>)
    requires Clean(absolute, stack)
    ensures var s := Render(absolute, stack);
            s != [] && Slashed(s) == s && IsAbsolute(s) == absolute && Resolve(absolute, [], Split(s)) == stack
  {
    hide Split, Resolve, Render, Slashed, IsAbsolute, Clean;
    if stack == [] { EmptyReads(absolute); }
    else if absolute { RootedReads(stack); }
    else { RelativeReads(stack); }
  }

  lemma RelativeReads(stack: seq<Segment>)
    requires Clean(false, stack) && stack != []
    ensures var s := Render(false, stack);
            s != [] && Slashed(s) == s && IsAbsolute(s) == false && Resolve(false, [], Split(s)) == stack
  {
    hide Split, Resolve, Join, Slashed, Clean;
    JoinedReads(false, stack);
    assert [] + stack == stack;
    ResolveClean(false, [], stack);
    SlashedSame(Join(stack));
  }

  lemma RootedReads(stack: seq<Segment>)
    requires Clean(true, stack) && stack != []
    ensures var s := Render(true, stack);
            s != [] && Slashed(s) == s && IsAbsolute(s) == true && Resolve(true, [], Split(s)) == stack
  {
    hide Split, Resolve, Join, Slashed, Clean;
    JoinedReads(true, stack);
    assert [] + stack == stack;
    ResolveClean(true, [], stack);
    SlashedSame("/" + Join(stack));
    assert [] + "/" + Join(stack) == "/" + Join(stack);
    SplitAppend([], Join(stack));
    SlashedSame([]);
    LeadingEmpty(true, stack);
  }

  lemma LeadingEmpty(absolute: bool, segments: seq<Segment>)
    ensures Resolve(absolute, [], Split([]) + segments) == Resolve(absolute, [], segments)
  {
    assert (Split([]) + segments)[1..] == segments;
  }

  lemma CleanStack(path: string)
    ensures var s := Slashed(path); Clean(IsAbsolute(s), Resolve(IsAbsolute(s), [], Split(s)))
  {
    SplitHasNoSlash(Slashed(path));
    ResolveIsClean(IsAbsolute(Slashed(path)), [], Split(Slashed(path)));
  }

  /** Normalizing twice is normalizing once. */
  lemma NormalizeIdempotent(path: string)
    ensures Normalize(Normalize(path)) == Normalize(path)
  {
    var s := Slashed(path);
    CleanStack(path);
    RenderReads(IsAbsolute(s), Resolve(IsAbsolute(s), [], Split(s)));
  }

  // -------------------------------------------------------------------------
  // The laws of lexical paths

  /** A backslash separates like a slash. */
  lemma BackslashSeparates(a: string, b: string)
    ensures Normalize(a + "\\" + b) == Normalize(a + "/" + b)
  {
    hide Split, Resolve, Render;
    assert Slashed(a + "\\" + b) == Slashed(a + "/" + b);
  }

  /** Normal forms: the root, the current directory, or plain segments between slashes, in which `..` comes only first
      and only in a relative path. */
  ghost predicate NormalForm(r: string, absolute: bool, stack: seq<Segment>) {
    && Clean(absolute, stack)
    && if stack == [] then r == if absolute then "/" else "."
       else r == (if absolute then "/" else "") + Join(stack) && Split(Join(stack)) == stack
  }

  /** Every result is in normal form, absolute exactly if the path starts with a separator; and a path in normal form
      stays as it is. */
  lemma NormalFormExactly(path: string)
    ensures var absolute := path != [] && (path[0] == '/' || path[0] == '\\');
            exists stack :: NormalForm(Normalize(path), absolute, stack)
    ensures Normalize(path) == path <==> exists absolute, stack :: NormalForm(path, absolute, stack)
  {
    hide Split, Resolve, Join, Clean, NormalForm;
    var absolute := IsAbsolute(Slashed(path));
    var stack := Resolve(absolute, [], Split(Slashed(path)));
    CleanStack(path);
    NormalFormIs(Normalize(path), absolute, stack);
    if absolute', stack' :| NormalForm(path, absolute', stack') {
      NormalFormIs(path, absolute', stack');
      RenderReads(absolute', stack');
    }
  }

  lemma NormalFormIs(r: string, absolute: bool, stack: seq<Segment>)
    ensures NormalForm(r, absolute, stack) <==> Clean(absolute, stack) && r == Render(absolute, stack)
  {
    hide Split, Clean, IsPlain;
    if stack == [] { assert Join(stack) == []; }
    else if Clean(absolute, stack) { JoinedReads(absolute, stack); }
    assert "" + Join(stack) == Join(stack);
  }

  /** `a` followed by segments, and then by `b`. */
  lemma SegmentsAfter(a: string, middle: string, b: string)
    ensures Normalize(a + "/" + middle + "/" + b)
            == Render(Rooted(a),
                 Resolve(Rooted(a), Resolve(Rooted(a), Resolve(Rooted(a), [], Split(Slashed(a))),
                                            Split(Slashed(middle))),
                         Split(Slashed(b))))
  {
    hide Resolve, Render, Split;
    assert a + "/" + middle + "/" + b == a + "/" + (middle + "/" + b);
    NormalizeAfter(a, middle + "/" + b);
    assert Slashed(middle + "/" + b) == Slashed(middle) + "/" + Slashed(b);
    SplitAppend(Slashed(middle), Slashed(b));
    ResolveAppend(Rooted(a), Resolve(Rooted(a), [], Split(Slashed(a))), Split(Slashed(middle)), Split(Slashed(b)));
  }

  /** Empty and `.` segments vanish. */
  lemma EmptySegmentsVanish(a: string, b: string)
    ensures Normalize(a + "//" + b) == Normalize(a + "/" + b) && Normalize(a + "/./" + b) == Normalize(a + "/" + b)
  {
    hide Render, Slashed, Rooted;
    assert a + "//" + b == a + "/" + [] + "/" + b && a + "/./" + b == a + "/" + "." + "/" + b;
    SegmentsAfter(a, [], b);
    SegmentsAfter(a, ".", b);
    NormalizeAfter(a, b);
    SlashedSame([]);
    SlashedSame(".");
    SplitPlain([]);
    SplitPlain(".");
  }

  /** `..` takes back the segment before it. */
  lemma UpTakesBack(a: string, x: Segment, b: string)
    requires IsPlain(x) && x != ".."
    ensures Normalize(a + "/" + x + "/../" + b) == Normalize(a + "/" + b)
  {
    hide Render, Slashed, Rooted, Resolve;
    var middle := x + "/" + "..";
    assert a + "/" + x + "/../" + b == a + "/" + middle + "/" + b;
    SegmentsAfter(a, middle, b);
    NormalizeAfter(a, b);
    SlashedSame(middle);
    SplitAppend(x, "..");
    SplitPlain(x);
    SplitPlain("..");
    var stack := Resolve(Rooted(a), [], Split(Slashed(a)));
    ResolveOne(Rooted(a), stack, [x], "..");
    ResolveOne(Rooted(a), stack, [], x);
    assert [] + [x] == [x] && (stack + [x])[..|stack|] == stack;
    ResolveStep(Rooted(a), stack, []);
  }

  /** At the root `..` stays there. */
  lemma RootHasNoParent(b: string)
    ensures Normalize("/../" + b) == Normalize("/" + b)
  {
    hide Render, Slashed;
    assert "/../" + b == [] + "/" + ".." + "/" + b && "/" + b == [] + "/" + b;
    SegmentsAfter([], "..", b);
    NormalizeAfter([], b);
    SlashedSame([]);
    SlashedSame("..");
    SplitPlain([]);
    SplitPlain("..");
  }

  /** A leading `./` and a trailing separator say nothing, and the empty path is the current directory. */
  lemma EndsSayNothing(b: string)
    ensures !IsAbsolute(Slashed(b)) ==> Normalize("./" + b) == Normalize(b)
    ensures b != [] ==> Normalize(b + "/") == Normalize(b)
    ensures Normalize([]) == "."
  {
    hide Join, Resolve, Split, Slashed;
    assert "./" + b == "." + "/" + b && b + "/" == b + "/" + [];
    NormalizeAfter(".", b);
    NormalizeAfter(b, []);
    SlashedSame([]);
    SlashedSame(".");
    SplitPlain([]);
    SplitPlain(".");
    ResolveIdle(false, [], ".");
    ResolveIdle(false, [], []);
    ResolveIdle(Rooted(b), Resolve(Rooted(b), [], Split(Slashed(b))), []);
  }

  lemma ResolveIdle(absolute: bool, stack: seq<Segment>, g: Segment)
    requires g == [] || g == "."
    ensures Resolve(absolute, stack, [g]) == stack
  {
    assert [g][1..] == [];
  }

  // -------------------------------------------------------------------------
  // The laws leave no other result

  ghost predicate Separators(N: string -> string) { forall a, b :: N(a + "\\" + b) == N(a + "/" + b) }

  ghost predicate Empties(N: string -> string) { forall a, b :: N(a + "//" + b) == N(a + "/" + b) }

  ghost predicate Dots(N: string -> string) { forall a, b :: N(a + "/./" + b) == N(a + "/" + b) }

  ghost predicate Ups(N: string -> string) {
    forall a, x, b | IsPlain(x) && x != ".." :: N(a + "/" + x + "/../" + b) == N(a + "/" + b)
  }

  ghost predicate RootUps(N: string -> string) { forall b :: N("/../" + b) == N("/" + b) }

  ghost predicate Leading(N: string -> string) {
    forall b | !IsAbsolute(Slashed(b)) :: N("./" + b) == N(b)
  }

  ghost predicate Trailing(N: string -> string) { forall a | a != [] :: N(a + "/") == N(a) }

  ghost predicate Fixes(N: string -> string) {
    forall r, absolute, stack | NormalForm(r, absolute, stack) :: N(r) == r
  }

  /** The laws of lexical paths. */
  ghost predicate Lexical(N: string -> string) {
    && Separators(N) && Empties(N) && Dots(N) && Ups(N) && RootUps(N) && Leading(N) && Trailing(N) && Fixes(N)
    && N([]) == "."
  }

  /** The normalizer obeys them. */
  lemma NormalizeIsLexical()
    ensures Lexical(Normalize)
  {
    hide Normalize, NormalForm, IsPlain;
    forall a, b ensures Normalize(a + "\\" + b) == Normalize(a + "/" + b) { BackslashSeparates(a, b); }
    forall a, b
      ensures Normalize(a + "//" + b) == Normalize(a + "/" + b) && Normalize(a + "/./" + b) == Normalize(a + "/" + b) {
      EmptySegmentsVanish(a, b);
    }
    forall a, x, b | IsPlain(x) && x != ".."
      ensures Normalize(a + "/" + x + "/../" + b) == Normalize(a + "/" + b) {
      UpTakesBack(a, x, b);
    }
    forall b ensures Normalize("/../" + b) == Normalize("/" + b) { RootHasNoParent(b); }
    forall b | !IsAbsolute(Slashed(b)) ensures Normalize("./" + b) == Normalize(b) { EndsSayNothing(b); }
    forall a | a != [] ensures Normalize(a + "/") == Normalize(a) { EndsSayNothing(a); }
    forall r, absolute, stack | NormalForm(r, absolute, stack) ensures Normalize(r) == r { NormalFormExactly(r); }
    EndsSayNothing([]);
  }

  /** A separator after each segment. */
  function Flat(segments: seq<Segment>): string {
    if segments == [] then [] else segments[0] + "/" + Flat(segments[1..])
  }

  lemma {:induction false} FlatSplit(s: string)
    ensures Flat(Split(s)) == s + "/"
  {
    hide Split;
    SplitStep(s);
    if s == [] { assert Flat([""]) == "" + "/" + Flat([""][1..]); }
    else {
      FlatSplit(s[1..]);
      var rest := Split(s[1..]);
      assert s == [s[0]] + s[1..];
      if s[0] == '/' { assert ([""] + rest)[1..] == rest; }
      else {
        assert Split(s)[1..] == rest[1..];
        assert Flat(Split(s)) == [s[0]] + rest[0] + "/" + Flat(rest[1..]) == [s[0]] + Flat(rest);
      }
    }
  }

  /** The stack as a path to which more can be appended. */
  function Base(absolute: bool, stack: seq<Segment>): string {
    if stack == [] then (if absolute then "" else ".") else (if absolute then "/" else "") + Join(stack)
  }

  lemma {:induction false} JoinOne(stack: seq<Segment>, x: Segment)
    ensures Join(stack + [x]) == if stack == [] then x else Join(stack) + "/" + x
  {
    if stack != [] {
      JoinOne(stack[1..], x);
      assert (stack + [x])[1..] == stack[1..] + [x];
    }
  }

  lemma RelativeStart(x: Segment, tail: string)
    requires IsPlain(x)
    ensures !IsAbsolute(Slashed(x + tail))
  {
    assert x[0] in x;
    assert Slashed(x + tail)[0] == x[0];
  }

  /** A plain segment may be moved from the rest of the path to the stack. */
  lemma Pushes(N: string -> string, absolute: bool, stack: seq<Segment>, x: Segment, tail: string)
    requires Leading(N) && IsPlain(x)
    ensures N(Base(absolute, stack) + "/" + x + tail) == N(Base(absolute, stack + [x]) + tail)
  {
    hide Join, Slashed, IsPlain;
    JoinOne(stack, x);
    if stack == [] && !absolute {
      RelativeStart(x, tail);
      assert Base(false, []) + "/" + x + tail == "./" + (x + tail);
      assert Base(false, stack + [x]) + tail == x + tail;
    } else {
      assert Base(absolute, stack) + "/" + x == Base(absolute, stack + [x]);
    }
  }

  /** One segment resolved by the laws. */
  lemma LawStep(N: string -> string, absolute: bool, stack: seq<Segment>, g: Segment, tail: string)
    requires Lexical(N) && Clean(absolute, stack) && '/' !in g && '\\' !in g
    ensures N(Base(absolute, stack) + "/" + g + "/" + tail) == N(Base(absolute, Step(absolute, stack, g)) + "/" + tail)
  {
    hide Join, Slashed, Base, Separators, Empties, Dots, Ups, RootUps, Leading, Trailing, Fixes;
    var base := Base(absolute, stack);
    if g == [] { EmptyLaw(N, base, tail); }
    else if g == "." { DotLaw(N, base, tail); }
    else if g == ".." && stack != [] && stack[|stack| - 1] != ".." { UpLaw(N, absolute, stack, tail); }
    else if g == ".." && absolute { RootLaw(N, stack, tail); }
    else {
      assert base + "/" + g + "/" + tail == base + "/" + g + ("/" + tail);
      Pushes(N, absolute, stack, g, "/" + tail);
      assert Base(absolute, stack + [g]) + ("/" + tail) == Base(absolute, stack + [g]) + "/" + tail;
    }
  }

  lemma EmptyLaw(N: string -> string, base: string, tail: string)
    requires Empties(N)
    ensures N(base + "/" + [] + "/" + tail) == N(base + "/" + tail)
  {
    assert base + "/" + [] + "/" + tail == base + "//" + tail;
  }

  lemma DotLaw(N: string -> string, base: string, tail: string)
    requires Dots(N)
    ensures N(base + "/" + "." + "/" + tail) == N(base + "/" + tail)
  {
    assert base + "/" + "." + "/" + tail == base + "/./" + tail;
  }

  lemma RootLaw(N: string -> string, stack: seq<Segment>, tail: string)
    requires RootUps(N) && Clean(true, stack) && (stack == [] || stack[|stack| - 1] == "..")
    ensures stack == [] && N(Base(true, stack) + "/" + ".." + "/" + tail) == N(Base(true, stack) + "/" + tail)
  {
    assert Base(true, []) + "/" + ".." + "/" + tail == "/../" + tail && Base(true, []) + "/" + tail == "/" + tail;
  }

  lemma UpLaw(N: string -> string, absolute: bool, stack: seq<Segment>, tail: string)
    requires Leading(N) && Ups(N) && Clean(absolute, stack) && stack != [] && stack[|stack| - 1] != ".."
    ensures N(Base(absolute, stack) + "/" + ".." + "/" + tail) == N(Base(absolute, stack[..|stack| - 1]) + "/" + tail)
  {
    hide Join, Slashed, Base, Leading;
    var front, x := stack[..|stack| - 1], stack[|stack| - 1];
    assert stack == front + [x] && IsPlain(x);
    Pushes(N, absolute, front, x, "/../" + tail);
    assert Base(absolute, stack) + ("/../" + tail) == Base(absolute, stack) + "/" + ".." + "/" + tail;
    assert Base(absolute, front) + "/" + x + ("/../" + tail) == Base(absolute, front) + "/" + x + "/../" + tail;
  }

  /** The laws carry a path to the rendering of its resolved stack. */
  lemma {:induction false} LawsResolve(N: string -> string, absolute: bool, stack: seq<Segment>, segments: seq<Segment>)
    requires Lexical(N) && Clean(absolute, stack) && NoSlash(segments)
    ensures N(Base(absolute, stack) + "/" + Flat(segments))
            == Render(absolute, Resolve(absolute, stack, segments))
    decreases |segments|
  {
    hide Lexical, Clean, Render, Base, Step;
    ResolveStep(absolute, stack, segments);
    if segments == [] { LawsEnd(N, absolute, stack); }
    else {
      var g, rest := segments[0], segments[1..];
      assert Base(absolute, stack) + "/" + Flat(segments) == Base(absolute, stack) + "/" + g + "/" + Flat(rest);
      LawStep(N, absolute, stack, g, Flat(rest));
      StackStaysClean(absolute, stack, g);
      LawsResolve(N, absolute, Step(absolute, stack, g), rest);
    }
  }

  lemma StackStaysClean(absolute: bool, stack: seq<Segment>, g: Segment)
    requires Clean(absolute, stack) && '/' !in g && '\\' !in g
    ensures Clean(absolute, Step(absolute, stack, g))
  {
  }

  lemma LawsEnd(N: string -> string, absolute: bool, stack: seq<Segment>)
    requires Lexical(N) && Clean(absolute, stack)
    ensures N(Base(absolute, stack) + "/" + Flat([])) == Render(absolute, stack)
  {
    hide Separators, Empties, Dots, Ups, RootUps, Leading, Clean, NormalForm;
    var r := Render(absolute, stack);
    NormalFormIs(r, absolute, stack);
    assert N(r) == r;
    assert Base(absolute, stack) + "/" + Flat([]) == Base(absolute, stack) + "/";
    if stack == [] && absolute { assert Base(true, []) + "/" == r; }
    else { assert Base(absolute, stack) == r && r != [] by { BaseRenders(absolute, stack); } }
  }

  lemma BaseRenders(absolute: bool, stack: seq<Segment>)
    requires Clean(absolute, stack) && !(stack == [] && absolute)
    ensures Base(absolute, stack) == Render(absolute, stack) && Render(absolute, stack) != []
  {
    hide Split, Clean;
    if stack != [] { JoinedReads(absolute, stack); }
  }

  /** Backslashes may be replaced one by one. */
  lemma {:induction false} LawsSlash(N: string -> string, front: string, path: string)
    requires Separators(N)
    ensures N(front + path) == N(front + Slashed(path))
    decreases |path|
  {
    if path == [] { assert Slashed(path) == path; }
    else {
      var c, rest := path[0], path[1..];
      var d := if c == '\\' then '/' else c;
      assert Slashed(path) == [d] + Slashed(rest);
      assert front + path == front + [c] + rest;
      assert N(front + [c] + rest) == N(front + [d] + rest);
      LawsSlash(N, front + [d], rest);
      assert front + [d] + Slashed(rest) == front + Slashed(path);
    }
  }

  /**
   The laws leave no other result: whatever obeys them is the normalizer.
   */
  lemma LawsDetermine(N: string -> string, path: string)
    requires Lexical(N)
    ensures N(path) == Normalize(path)
  {
    hide Separators, Empties, Dots, Ups, RootUps, Fixes, Split, Resolve, Render, Slashed;
    var s := Slashed(path);
    assert [] + path == path && [] + s == s;
    LawsSlash(N, [], path);
    NoBackslash(path);
    SplitHasNoSlash(s);
    if s == [] { EmptyPath(); }
    else if IsAbsolute(s) { AbsoluteLaws(N, s); }
    else {
      SlashedOnce(path);
      FlatSplit(s);
      LawsResolve(N, false, [], Split(s));
      assert Base(false, []) + "/" + Flat(Split(s)) == "./" + (s + "/");
      StillRelative(s);
      assert N("./" + (s + "/")) == N(s + "/") == N(s);
    }
  }

  lemma EmptyPath()
    ensures forall path: string | Slashed(path) == [] :: path == [] && Normalize(path) == "."
  {
  }

  lemma NoBackslash(path: string)
    ensures '\\' !in Slashed(path)
  {
  }

  lemma SlashedOnce(path: string)
    ensures Slashed(Slashed(path)) == Slashed(path)
  {
  }

  lemma StillRelative(s: string)
    requires s != [] && !IsAbsolute(s) && Slashed(s) == s
    ensures !IsAbsolute(Slashed(s + "/"))
  {
    assert Slashed(s + "/")[0] == Slashed(s)[0];
  }

  lemma AbsoluteLaws(N: string -> string, s: string)
    requires Lexical(N) && IsAbsolute(s) && NoSlash(Split(s))
    ensures N(s) == Render(true, Resolve(true, [], Split(s)))
  {
    hide Separators, Empties, Dots, Ups, RootUps, Leading, Fixes, Render;
    var tail := s[1..];
    assert s == "/" + tail && s == [] + "/" + tail;
    SplitAppend([], tail);
    SplitPlain([]);
    LeadingEmpty(true, Split(tail));
    FlatSplit(tail);
    assert forall i | 0 <= i < |Split(tail)| :: Split(tail)[i] == Split(s)[i + 1];
    LawsResolve(N, true, [], Split(tail));
    assert Base(true, []) + "/" + Flat(Split(tail)) == s + "/";
  }

  /** The prefix may be normalized first, if and only if it is not empty. */
  lemma NormalizePrefix(a: string, b: string)
    ensures Normalize(a + "/" + b) == Normalize(Normalize(a) + "/" + b) <==> a != []
  {
    hide Split, Resolve, Join, Render, Slashed;
    var n, absolute := Normalize(a), IsAbsolute(Slashed(a));
    var stack := Resolve(absolute, [], Split(Slashed(a)));
    CleanStack(a);
    RenderReads(absolute, stack);
    NormalizeAfter(a, b);
    NormalizeAfter(n, b);
    if a == [] {
      AfterIsClean(a, b);
      AfterIsClean(n, b);
    }
  }

  /** `a/b` is absolute if `a` is, or is empty. */
  predicate Rooted(a: string) { a == [] || IsAbsolute(Slashed(a)) }

  /** What `a/b` leaves on the stack: the segments of `b` continue from where `a` ended. */
  function Continued(a: string, b: string): seq<Segment> {
    Resolve(Rooted(a), Resolve(Rooted(a), [], Split(Slashed(a))), Split(Slashed(b)))
  }

  lemma NormalizeAfter(a: string, b: string)
    ensures Normalize(a + "/" + b) == Render(Rooted(a), Continued(a, b))
  {
    assert Slashed(a + "/" + b) == Slashed(a) + "/" + Slashed(b);
    SplitAppend(Slashed(a), Slashed(b));
    ResolveAppend(Rooted(a), [], Split(Slashed(a)), Split(Slashed(b)));
  }

  lemma AfterIsClean(a: string, b: string)
    ensures Clean(Rooted(a), Continued(a, b)) && IsAbsolute(Render(Rooted(a), Continued(a, b))) == Rooted(a)
  {
    hide Split, Resolve, Join, Render;
    SplitHasNoSlash(Slashed(a));
    SplitHasNoSlash(Slashed(b));
    ResolveIsClean(Rooted(a), [], Split(Slashed(a)));
    ResolveIsClean(Rooted(a), Resolve(Rooted(a), [], Split(Slashed(a))), Split(Slashed(b)));
    RenderReads(Rooted(a), Continued(a, b));
  }

  // -------------------------------------------------------------------------
  // Normalizing the rest of a path first

  /** A plain segment that goes down is pushed. */
  lemma PushPlain(absolute: bool, stack: seq<Segment>, segment: Segment)
    requires IsPlain(segment) && segment != ".."
    ensures Step(absolute, stack, segment) == stack + [segment]
  {
  }

  lemma ResolveOne(absolute: bool, stack: seq<Segment>, front: seq<Segment>, last: Segment)
    ensures Resolve(absolute, stack, front + [last]) == Step(absolute, Resolve(absolute, stack, front), last)
  {
    hide Step;
    ResolveAppend(absolute, stack, front, [last]);
    ResolveStep(absolute, Resolve(absolute, stack, front), [last]);
    assert [last][1..] == [];
    ResolveStep(absolute, Step(absolute, Resolve(absolute, stack, front), last), []);
  }

  /** One more segment may be applied to the relative stack instead. */
  lemma StepRelative(absolute: bool, stack: seq<Segment>, relative: seq<Segment>, segment: Segment)
    requires Clean(false, relative)
    ensures Step(absolute, Resolve(absolute, stack, relative), segment)
            == Resolve(absolute, stack, Step(false, relative, segment))
  {
    hide Resolve;
    ResolveOne(absolute, stack, relative, segment);
    if segment == ".." && relative != [] && relative[|relative| - 1] != ".." {
      var front, last := relative[..|relative| - 1], relative[|relative| - 1];
      assert relative == front + [last] && IsPlain(last);
      ResolveOne(absolute, stack, front, last);
      PushPlain(absolute, Resolve(absolute, stack, front), last);
      assert (Resolve(absolute, stack, front) + [last])[..|Resolve(absolute, stack, front)|]
        == Resolve(absolute, stack, front);
    }
  }

  /** Segments may be resolved on their own first, as a relative path. */
  lemma {:induction false} ResolveRelative(
    absolute: bool, stack: seq<Segment>, relative: seq<Segment>, segments: seq<Segment>)
    requires Clean(false, relative) && NoSlash(segments)
    ensures Resolve(absolute, Resolve(absolute, stack, relative), segments)
            == Resolve(absolute, stack, Resolve(false, relative, segments))
    decreases |segments|
  {
    hide Resolve, Step;
    ResolveStep(absolute, Resolve(absolute, stack, relative), segments);
    ResolveStep(false, relative, segments);
    if segments != [] {
      StepRelative(absolute, stack, relative, segments[0]);
      assert Clean(false, Step(false, relative, segments[0])) by { StepIsClean(relative, segments[0]); }
      ResolveRelative(absolute, stack, Step(false, relative, segments[0]), segments[1..]);
    }
  }

  lemma StepIsClean(stack: seq<Segment>, segment: Segment)
    requires Clean(false, stack) && '/' !in segment && '\\' !in segment
    ensures Clean(false, Step(false, stack, segment))
  {
  }

  /** A relative path's own segments, resolved on their own. */
  function Relative(p: string): seq<Segment> { Resolve(false, [], Split(Slashed(p))) }

  lemma RelativeIsClean(p: string)
    ensures Clean(false, Relative(p)) && NoSlash(Split(Slashed(p)))
  {
    SplitHasNoSlash(Slashed(p));
    ResolveIsClean(false, [], Split(Slashed(p)));
  }

  lemma ResolveViaRelative(absolute: bool, stack: seq<Segment>, p: string)
    ensures Resolve(absolute, stack, Split(Slashed(p))) == Resolve(absolute, stack, Relative(p))
  {
    RelativeIsClean(p);
    ResolveRelative(absolute, stack, [], Split(Slashed(p)));
  }

  /** The segments of a normalized relative path resolve as its stack does. */
  lemma NormalizedRelative(absolute: bool, stack: seq<Segment>, p: string)
    requires !IsAbsolute(Slashed(p))
    ensures Resolve(absolute, stack, Split(Slashed(Normalize(p)))) == Resolve(absolute, stack, Relative(p))
  {
    hide Split, Resolve, Join;
    RelativeIsClean(p);
    var r := Relative(p);
    RenderReads(false, r);
    ResolveViaRelative(absolute, stack, Normalize(p));
  }

  /** A path climbs if, on its own, it leads above where it starts. */
  predicate Climbs(p: string) { Relative(p) != [] && Relative(p)[0] == ".." }

  // -------------------------------------------------------------------------
  // Absolute tails

  ghost predicate NoUps(stack: seq<Segment>) { forall i | 0 <= i < |stack| :: IsPlain(stack[i]) && stack[i] != ".." }

  lemma {:induction false} ResolveDown(absolute: bool, stack: seq<Segment>, segments: seq<Segment>)
    requires NoUps(segments)
    ensures Resolve(absolute, stack, segments) == stack + segments
    decreases |segments|
  {
    if segments != [] {
      PushPlain(absolute, stack, segments[0]);
      ResolveDown(absolute, stack + [segments[0]], segments[1..]);
      assert stack + [segments[0]] + segments[1..] == stack + segments;
    }
  }

  ghost predicate OnlyUps(segments: seq<Segment>) { forall i | 0 <= i < |segments| :: segments[i] == ".." }

  /** A clean relative stack goes up first and then only down. */
  lemma {:induction false} UpsThenDown(stack: seq<Segment>) returns (ups: seq<Segment>, down: seq<Segment>)
    requires Clean(false, stack)
    ensures stack == ups + down && OnlyUps(ups) && NoUps(down)
    ensures ups == [] <==> !(stack != [] && stack[0] == "..")
  {
    if stack == [] || stack[|stack| - 1] == ".." { ups, down := stack, []; }
    else {
      var front, last := stack[..|stack| - 1], stack[|stack| - 1];
      ups, down := UpsThenDown(front);
      assert stack == front + [last] && IsPlain(last);
      down := down + [last];
    }
  }

  /** At the root, going up stays at the root. */
  lemma {:induction false} RootStays(ups: seq<Segment>)
    requires OnlyUps(ups)
    ensures Resolve(true, [], ups) == []
    decreases |ups|
  {
    if ups != [] { RootStays(ups[1..]); }
  }

  /** How far down a stack is: segments down minus segments up. */
  function Depth(stack: seq<Segment>): int {
    if stack == [] then 0 else Depth(stack[..|stack| - 1]) + if stack[|stack| - 1] == ".." then -1 else 1
  }

  lemma UpIsOneLess(absolute: bool, stack: seq<Segment>)
    requires Clean(absolute, stack)
    ensures Depth(Step(absolute, stack, "..")) == Depth(stack) - if absolute && stack == [] then 0 else 1
    ensures Clean(absolute, Step(absolute, stack, ".."))
  {
    if !(stack != [] && stack[|stack| - 1] != "..") && !absolute {
      assert (stack + [".."])[..|stack|] == stack;
    }
  }

  /** Going up leads somewhere else, unless it is done at the root. */
  lemma {:induction false} UpsLeave(absolute: bool, stack: seq<Segment>, ups: seq<Segment>)
    requires Clean(absolute, stack) && OnlyUps(ups)
    ensures Depth(Resolve(absolute, stack, ups)) <= Depth(stack)
    ensures ups != [] && !(absolute && stack == []) ==> Depth(Resolve(absolute, stack, ups)) < Depth(stack)
    decreases |ups|
  {
    hide Step, Depth, Clean;
    if ups != [] {
      UpIsOneLess(absolute, stack);
      UpsLeave(absolute, Step(absolute, stack, ".."), ups[1..]);
    }
  }

  /** Different clean stacks are rendered differently. */
  lemma RenderInjective(absolute: bool, a: seq<Segment>, b: seq<Segment>)
    requires Clean(absolute, a) && Clean(absolute, b)
    ensures Render(absolute, a) == Render(absolute, b) <==> a == b
  {
    hide Render, Resolve, Split, Clean;
    RenderReads(absolute, a);
    RenderReads(absolute, b);
  }

  /** What an absolute tail leaves on a stack, before and after it is normalized. */
  lemma AbsoluteTail(absolute: bool, stack: seq<Segment>, p: string) returns (ups: seq<Segment>, down: seq<Segment>)
    requires IsAbsolute(Slashed(p))
    ensures OnlyUps(ups) && NoUps(down) && (ups == [] <==> !Climbs(p))
    ensures Resolve(absolute, stack, Split(Slashed(p))) == Resolve(absolute, stack, ups) + down
    ensures Resolve(absolute, stack, Split(Slashed(Normalize(p)))) == stack + down
  {
    hide Split, Resolve, Join, IsPlain;
    RelativeIsClean(p);
    ups, down := UpsThenDown(Relative(p));
    ResolveViaRelative(absolute, stack, p);
    ResolveAppend(absolute, stack, ups, down);
    ResolveDown(absolute, Resolve(absolute, stack, ups), down);
    ResolveViaRelative(true, [], p);
    ResolveAppend(true, [], ups, down);
    RootStays(ups);
    ResolveDown(true, [], down);
    assert [] + down == down;
    RootedSegments(absolute, stack, down);
  }

  lemma RootedSegments(absolute: bool, stack: seq<Segment>, down: seq<Segment>)
    requires NoUps(down)
    ensures Resolve(absolute, stack, Split(Slashed(Render(true, down)))) == stack + down
  {
    hide Split, Resolve, Join;
    assert Clean(true, down);
    RenderReads(true, down);
    var s := Render(true, down);
    assert Clean(false, down);
    ResolveViaRelative(absolute, stack, s);
    ResolveRelativeAgrees(s, down);
    ResolveDown(absolute, stack, down);
  }

  /** A rendered absolute stack without ups reads as itself also when taken as relative. */
  lemma ResolveRelativeAgrees(s: string, down: seq<Segment>)
    requires NoUps(down) && s == Render(true, down)
    ensures Relative(s) == down
  {
    hide Split, Resolve, Join;
    if down == [] { RootRelative(); }
    else {
      assert Clean(false, down);
      JoinedReads(false, down);
      SlashedSame("/" + Join(down));
      assert [] + "/" + Join(down) == "/" + Join(down);
      SplitAppend([], Join(down));
      LeadingEmpty(false, down);
      assert [] + down == down;
      ResolveDown(false, [], down);
      SlashedSame([]);
    }
  }

  lemma RootRelative()
    ensures Relative(Render(true, [])) == []
  {
    assert Render(true, []) == "/" == [] + "/" + [];
    SplitPlain([]);
    SplitAppend([], []);
    LeadingEmpty(false, [[]]);
  }

  /**
   The rest of a path may be normalized first, exactly: unless the rest is absolute and climbs above its own root,
   and the base is neither the root nor empty.
   */
  lemma NormalizeTail(base: string, p: string)
    ensures Normalize(base + "/" + p) == Normalize(base + "/" + Normalize(p))
            <==> !IsAbsolute(Slashed(p)) || !Climbs(p) || base == [] || Normalize(base) == "/"
  {
    hide Split, Resolve, Join, Render, Climbs, Slashed;
    var absolute := Rooted(base);
    var stack := Resolve(absolute, [], Split(Slashed(base)));
    BaseStack(base);
    NormalizeAfter(base, p);
    NormalizeAfter(base, Normalize(p));
    if !IsAbsolute(Slashed(p)) {
      ResolveViaRelative(absolute, stack, p);
      NormalizedRelative(absolute, stack, p);
    } else {
      var ups, down := AbsoluteTail(absolute, stack, p);
      TailDiffers(absolute, stack, ups, down);
    }
  }

  /** Where a base ends. */
  lemma BaseStack(base: string)
    ensures var stack := Resolve(Rooted(base), [], Split(Slashed(base)));
            && Clean(Rooted(base), stack)
            && (Rooted(base) && stack == [] <==> base == [] || Normalize(base) == "/")
  {
    hide Split, Resolve, Join, Render;
    SplitHasNoSlash(Slashed(base));
    ResolveIsClean(Rooted(base), [], Split(Slashed(base)));
    if base == [] { EmptyBase(); } else { RootOnly(Rooted(base), Resolve(Rooted(base), [], Split(Slashed(base)))); }
  }

  lemma EmptyBase()
    ensures Slashed([]) == [] && Resolve(true, [], Split([])) == []
  {
  }

  lemma RootOnly(absolute: bool, stack: seq<Segment>)
    requires Clean(absolute, stack)
    ensures Render(absolute, stack) == "/" <==> absolute && stack == []
  {
    hide Split, Resolve;
    if stack != [] { JoinedReads(absolute, stack); }
  }

  lemma TailDiffers(absolute: bool, stack: seq<Segment>, ups: seq<Segment>, down: seq<Segment>)
    requires Clean(absolute, stack) && OnlyUps(ups) && NoUps(down)
    ensures Render(absolute, Resolve(absolute, stack, ups) + down) == Render(absolute, stack + down)
            <==> ups == [] || (absolute && stack == [])
  {
    hide Split, Join, Render, Step, Depth;
    var risen := Resolve(absolute, stack, ups);
    UpsLeave(absolute, stack, ups);
    if absolute && stack == [] { RootStays(ups); }
    else if ups != [] {
      assert NoSlash(ups);
      ResolveIsClean(absolute, stack, ups);
      DownIsClean(absolute, stack, down);
      DownIsClean(absolute, risen, down);
      RenderInjective(absolute, risen + down, stack + down);
      SameTail(risen, stack, down);
    }
  }

  lemma SameTail(a: seq<Segment>, b: seq<Segment>, tail: seq<Segment>)
    ensures a + tail == b + tail <==> a == b
  {
    assert |a + tail| == |a| + |tail| && |b + tail| == |b| + |tail|;
    assert a == (a + tail)[..|a|] && b == (b + tail)[..|b|];
  }

  lemma DownIsClean(absolute: bool, stack: seq<Segment>, down: seq<Segment>)
    requires Clean(absolute, stack) && NoUps(down)
    ensures Clean(absolute, stack + down)
  {
  }

  /** After the base `/q` the rest `/../x` may not be normalized first. */
  lemma TailCanDiffer()
    ensures Normalize("/q" + "/" + "/../x") != Normalize("/q" + "/" + Normalize("/../x"))
  {
    hide Split, Render;
    SlashedSame("/../x");
    SlashedSame("/q");
    SplitPlain([]);
    SplitPlain("..");
    SplitPlain("x");
    SplitPlain("q");
    assert "/../x" == [] + "/" + "../x" && "../x" == ".." + "/" + "x" && "/q" == [] + "/" + "q";
    SplitAppend([], "../x");
    SplitAppend("..", "x");
    SplitAppend([], "q");
    assert Split("/../x") == ["", "..", "x"] && Split("/q") == ["", "q"];
    assert Climbs("/../x") by { assert Resolve(false, [], ["", "..", "x"])[0] == ".."; }
    assert Resolve(true, [], ["", "q"]) == ["q"];
    RootOnly(true, ["q"]);
    NormalizeTail("/q", "/../x");
  }
}
