/** `resolve_variable_in_string` (src/resolver.rs): one left-to-right pass over a template
    that replaces each `${name}` by the value of the first variable called `name`. The text
    it substitutes is never scanned again. */
module Interpolation {
  import opened Wrappers
  import opened Spec
  import opened EnvVars
  import opened Strings

  /** A reference opener `${` starts at position `i`. */
  predicate RefAt(s: string, i: int) {
    0 <= i && i + 1 < |s| && s[i] == '$' && s[i + 1] == '{'
  }

  predicate NoRef(s: string) {
    forall k :: 0 <= k < |s| ==> !RefAt(s, k)
  }

  /** `input[from..].find("${")`, as an absolute position. */
  function FindRef(s: string, from: nat): (r: Option<nat>)
    requires from <= |s|
    ensures r.Some? ==> from <= r.value && RefAt(s, r.value)
    decreases |s| - from
  {
    if from + 1 >= |s| then None
    else if RefAt(s, from) then Some(from)
    else FindRef(s, from + 1)
  }

  /** `input[from..].find(c)`, as an absolute position. */
  function FindChar(s: string, c: char, from: nat): (r: Option<nat>)
    requires from <= |s|
    ensures r.Some? ==> from <= r.value < |s| && s[r.value] == c
    decreases |s| - from
  {
    if from == |s| then None
    else if s[from] == c then Some(from)
    else FindChar(s, c, from + 1)
  }

  /** `FindRef` finds the first opener at or after `from`, and none means there is none. */
  lemma {:induction false} FindRefFirst(s: string, from: nat)
    requires from <= |s|
    ensures FindRef(s, from).Some? ==> forall k :: from <= k < FindRef(s, from).value ==> !RefAt(s, k)
    ensures FindRef(s, from).None? ==> forall k :: from <= k ==> !RefAt(s, k)
    decreases |s| - from
  {
    if from + 1 < |s| && !RefAt(s, from) {
      FindRefFirst(s, from + 1);
    }
  }

  /** `FindChar` finds the first `c` at or after `from`, and none means there is none. */
  lemma {:induction false} FindCharFirst(s: string, c: char, from: nat)
    requires from <= |s|
    ensures FindChar(s, c, from).Some? ==> forall k :: from <= k < FindChar(s, c, from).value ==> s[k] != c
    ensures FindChar(s, c, from).None? ==> forall k :: from <= k < |s| ==> s[k] != c
    decreases |s| - from
  {
    if from < |s| && s[from] != c {
      FindCharFirst(s, c, from + 1);
    }
  }

  /** The name of a reference starts after its `${`: the `}` search may begin there. */
  lemma CloseAfterOpener(s: string, st: nat)
    requires RefAt(s, st)
    ensures FindChar(s, '}', st) == FindChar(s, '}', st + 2)
  {
  }

  /** Puts `p` in front of a successful result; an error passes through. */
  function Prepend(p: string, r: Result<string>): Result<string> {
    match r
    case Ok(t) => Ok(p + t)
    case Err(m) => Err(m)
  }

  lemma PrependEmpty(r: Result<string>)
    ensures Prepend("", r) == r
  {
    if r.Ok? { assert "" + r.value == r.value; }
  }

  lemma PrependTwice(p: string, q: string, r: Result<string>)
    ensures Prepend(p, Prepend(q, r)) == Prepend(p + q, r)
  {
    if r.Ok? { assert p + (q + r.value) == (p + q) + r.value; }
  }

  /** The text the interpolator produces for `s[pos..]` when its cursor is at `pos`. */
  function InterpolateFrom(s: string, vars: seq<EnvVariable>, pos: nat): Result<string>
    requires pos <= |s|
    decreases |s| - pos
  {
    match FindRef(s, pos)
    case None => Ok(s[pos..])
    case Some(st) =>
      match FindChar(s, '}', st)
      case None => Err("Invalid variable reference: " + s)
      case Some(en) =>
        var name := s[st + 2..en];
        match Lookup(vars, name)
        case None => Err("Undefined variable: " + name)
        case Some(v) => Prepend(s[pos..st] + v, InterpolateFrom(s, vars, en + 1))
  }

  function Interpolate(s: string, vars: seq<EnvVariable>): Result<string> {
    InterpolateFrom(s, vars, 0)
  }

  /** At a defined reference the cursor emits the text before it, then its value. */
  lemma CursorReference(s: string, vars: seq<EnvVariable>, pos: nat, st: nat, en: nat, v: string)
    requires pos <= |s|
    requires FindRef(s, pos) == Some(st) && FindChar(s, '}', st) == Some(en)
    requires st + 2 <= en && Lookup(vars, s[st + 2..en]) == Some(v)
    ensures InterpolateFrom(s, vars, pos) == Prepend(s[pos..st] + v, InterpolateFrom(s, vars, en + 1))
  {
    var name := s[st + 2..en];
    assert Lookup(vars, name) == Some(v);
  }

  /** One turn of the cursor loop: the text up to the reference, then its value. */
  lemma CursorStep(s: string, vars: seq<EnvVariable>, done: string, pos: nat, st: nat, en: nat, v: string,
                   done': string, next: nat)
    requires pos <= |s|
    requires FindRef(s, pos) == Some(st) && FindChar(s, '}', st) == Some(en)
    requires st + 2 <= en && Lookup(vars, s[st + 2..en]) == Some(v)
    requires done' == done + (s[pos..st] + v) && next == en + 1
    ensures Prepend(done, InterpolateFrom(s, vars, pos)) == Prepend(done', InterpolateFrom(s, vars, next))
  {
    CursorReference(s, vars, pos, st, en, v);
    PrependTwice(done, s[pos..st] + v, InterpolateFrom(s, vars, en + 1));
  }

  /** With no opener left the rest of the input is copied. */
  lemma CursorDone(s: string, vars: seq<EnvVariable>, pos: nat)
    requires pos <= |s| && FindRef(s, pos).None?
    ensures InterpolateFrom(s, vars, pos) == Ok(s[pos..])
  {
  }

  /** An opener without a later `}` fails, naming the whole input. */
  lemma CursorUnterminated(s: string, vars: seq<EnvVariable>, pos: nat, st: nat)
    requires pos <= |s| && FindRef(s, pos) == Some(st) && FindChar(s, '}', st).None?
    ensures InterpolateFrom(s, vars, pos) == Err("Invalid variable reference: " + s)
  {
  }

  /** The cursor stops at the first reference whose name is not defined. */
  lemma CursorUndefined(s: string, vars: seq<EnvVariable>, pos: nat, st: nat, en: nat)
    requires pos <= |s|
    requires FindRef(s, pos) == Some(st) && FindChar(s, '}', st) == Some(en)
    requires st + 2 <= en && Lookup(vars, s[st + 2..en]).None?
    ensures InterpolateFrom(s, vars, pos) == Err("Undefined variable: " + s[st + 2..en])
  {
  }

  /** `resolve_variable_in_string`: the cursor loop of the source. */
  method ResolveVariableInString(input: string, vars: seq<EnvVariable>) returns (r: Result<string>)
    ensures r == Interpolate(input, vars)
  {
    var result := "";
    var lastEnd: nat := 0;
    ghost var total := Interpolate(input, vars);
    PrependEmpty(total);
    while true
      invariant lastEnd <= |input|
      invariant total == Prepend(result, InterpolateFrom(input, vars, lastEnd))
      decreases |input| - lastEnd
    {
      var start := FindRef(input, lastEnd);
      if start.None? {
        CursorDone(input, vars, lastEnd);
        return Ok(result + input[lastEnd..]);
      }
      var absoluteStart := start.value;
      var endOffset := FindChar(input, '}', absoluteStart);
      if endOffset.None? {
        CursorUnterminated(input, vars, lastEnd, absoluteStart);
        return Err("Invalid variable reference: " + input);
      }
      var absoluteEnd := endOffset.value;
      CloseAfterOpener(input, absoluteStart);
      var varName := input[absoluteStart + 2..absoluteEnd];
      var value := Lookup(vars, varName);
      if value.None? {
        CursorUndefined(input, vars, lastEnd, absoluteStart, absoluteEnd);
        return Err("Undefined variable: " + varName);
      }
      ghost var prev, prevEnd := result, lastEnd;
      result := result + (input[lastEnd..absoluteStart] + value.value);
      lastEnd := absoluteEnd + 1;
      CursorStep(input, vars, prev, prevEnd, absoluteStart, absoluteEnd, value.value, result, lastEnd);
    }
  }

  /** A template as the interpolator sees it: literal text and `${name}` references. */
  datatype Piece = Lit(text: string) | Ref(name: string)

  /** A literal holds no `${`; a reference name holds no `}`. */
  predicate PieceOk(p: Piece) {
    match p
    case Lit(t) => NoRef(t)
    case Ref(n) => '}' !in n
  }

  /** Every piece is well formed, and a literal that ends in `$` is the last piece or
      is followed by a reference, so no opener straddles two pieces (two literals in a
      row can always be written as one). */
  predicate WellFormed(ps: seq<Piece>)
    decreases |ps|
  {
    |ps| == 0 ||
    (&& PieceOk(ps[0])
     && (ps[0].Lit? && EndsWith(ps[0].text, '$') && |ps| > 1 ==> ps[1].Ref?)
     && WellFormed(ps[1..]))
  }

  function PieceText(p: Piece): string {
    match p
    case Lit(t) => t
    case Ref(n) => "${" + n + "}"
  }

  function Template(ps: seq<Piece>): string {
    if |ps| == 0 then "" else PieceText(ps[0]) + Template(ps[1..])
  }

  /** Reference semantics: literals are copied, each reference is replaced by its value,
      and the first unknown name is the error. */
  function Render(ps: seq<Piece>, vars: seq<EnvVariable>): Result<string> {
    if |ps| == 0 then Ok("") else RenderPiece(ps[0], Render(ps[1..], vars), vars)
  }

  /** One piece in front of the rendering `rest` of the pieces after it. */
  function RenderPiece(p: Piece, rest: Result<string>, vars: seq<EnvVariable>): Result<string> {
    match p
    case Lit(t) => Prepend(t, rest)
    case Ref(n) =>
      match Lookup(vars, n)
      case None => Err("Undefined variable: " + n)
      case Some(v) => Prepend(v, rest)
  }

  /** The opener search passes over text that holds none. */
  lemma {:induction false} FindRefSkip(s: string, a: nat, b: nat)
    requires a <= b <= |s|
    requires forall k :: a <= k < b ==> !RefAt(s, k)
    ensures FindRef(s, a) == FindRef(s, b)
    decreases b - a
  {
    if a < b && a + 1 < |s| {
      assert !RefAt(s, a);
      FindRefSkip(s, a + 1, b);
    }
  }

  /** Moving the cursor over text that holds no opener only shifts that text into the result. */
  lemma {:induction false} SkipText(s: string, vars: seq<EnvVariable>, a: nat, b: nat)
    requires a <= b <= |s|
    requires forall k :: a <= k < b ==> !RefAt(s, k)
    ensures InterpolateFrom(s, vars, a) == Prepend(s[a..b], InterpolateFrom(s, vars, b))
  {
    FindRefSkip(s, a, b);
    match FindRef(s, b)
    case None =>
      CursorDone(s, vars, a);
      CursorDone(s, vars, b);
      assert s[a..] == s[a..b] + s[b..];
    case Some(st) =>
      match FindChar(s, '}', st)
      case None =>
        CursorUnterminated(s, vars, a, st);
        CursorUnterminated(s, vars, b, st);
      case Some(en) =>
        CloseAfterOpener(s, st);
        match Lookup(vars, s[st + 2..en])
        case None =>
          CursorUndefined(s, vars, a, st, en);
          CursorUndefined(s, vars, b, st, en);
        case Some(v) =>
          CursorReference(s, vars, a, st, en, v);
          CursorReference(s, vars, b, st, en, v);
          assert s[a..st] + v == s[a..b] + (s[b..st] + v);
          PrependTwice(s[a..b], s[b..st] + v, InterpolateFrom(s, vars, en + 1));
  }

  /** `s` holds `t` from position `a` on, stated one character at a time. */
  predicate At(s: string, a: nat, t: string)
    ensures At(s, a, t) ==> a + |t| <= |s|
    decreases |t|
  {
    if |t| == 0 then a <= |s| else a < |s| && s[a] == t[0] && At(s, a + 1, t[1..])
  }

  lemma {:induction false} AtSlice(s: string, a: nat, t: string)
    ensures At(s, a, t) <==> a + |t| <= |s| && s[a..a + |t|] == t
    decreases |t|
  {
    if |t| > 0 {
      AtSlice(s, a + 1, t[1..]);
      if a + |t| <= |s| {
        assert s[a..a + |t|] == [s[a]] + s[a + 1..a + |t|];
        assert t == [t[0]] + t[1..];
      }
    }
  }

  /** `s` holds the text of the pieces `ps` from position `a` to its end. */
  predicate Matches(s: string, a: nat, ps: seq<Piece>)
    decreases |ps|
  {
    if |ps| == 0 then a == |s|
    else At(s, a, PieceText(ps[0])) && Matches(s, a + |PieceText(ps[0])|, ps[1..])
  }

  lemma {:induction false} TemplateMatches(pre: string, ps: seq<Piece>)
    ensures Matches(pre + Template(ps), |pre|, ps)
    decreases |ps|
  {
    if |ps| > 0 {
      var p := PieceText(ps[0]);
      assert pre + Template(ps) == (pre + p) + Template(ps[1..]);
      TemplateMatches(pre + p, ps[1..]);
      assert (pre + Template(ps))[|pre|..|pre| + |p|] == p;
      AtSlice(pre + Template(ps), |pre|, p);
    }
  }

  /** A literal without `${`, ending in `$` only where no `{` follows, starts no opener,
      even next to what follows it. */
  lemma LiteralHasNoOpener(s: string, a: nat, t: string)
    requires At(s, a, t) && NoRef(t)
    requires EndsWith(t, '$') && a + |t| < |s| ==> s[a + |t|] != '{'
    ensures forall k :: a <= k < a + |t| ==> !RefAt(s, k)
  {
    AtSlice(s, a, t);
    forall k | a <= k < a + |t| ensures !RefAt(s, k) {
      assert s[k] == t[k - a];
      if k + 1 < a + |t| {
        assert s[k + 1] == t[k + 1 - a];
        assert !RefAt(t, k - a);
      }
    }
  }

  /** `FindChar` stops at the first `c`. */
  lemma {:induction false} FindCharAt(s: string, c: char, a: nat, b: nat)
    requires a <= b < |s| && s[b] == c && c !in s[a..b]
    ensures FindChar(s, c, a) == Some(b)
    decreases b - a
  {
    if a < b {
      assert s[a] == s[a..b][0];
      assert s[a + 1..b] == s[a..b][1..];
      FindCharAt(s, c, a + 1, b);
    }
  }

  lemma FindRefAt(s: string, a: nat)
    requires RefAt(s, a)
    ensures FindRef(s, a) == Some(a)
  {
  }

  lemma SliceOfSlice(s: string, i: nat, j: nat, k: nat, l: nat)
    requires i <= j <= |s| && k <= l <= j - i
    ensures s[i..j][k..l] == s[i + k..i + l]
  {
    assert forall x :: 0 <= x < l - k ==> s[i..j][k..l][x] == s[i + k + x];
  }

  /** The characters of a `${name}` reference written at `a`. */
  lemma ReferenceShape(s: string, a: nat, n: string)
    requires At(s, a, PieceText(Ref(n)))
    ensures a + |n| + 3 <= |s|
    ensures s[a] == '$' && s[a + 1] == '{' && s[a + 2 + |n|] == '}'
    ensures s[a + 2..a + 2 + |n|] == n
  {
    AtSlice(s, a, PieceText(Ref(n)));
    var m, w := PieceText(Ref(n)), s[a..a + |n| + 3];
    assert s[a] == w[0] && s[a + 1] == w[1] && s[a + 2 + |n|] == w[|n| + 2];
    assert m[0] == '$' && m[1] == '{' && m[|n| + 2] == '}' && m[2..|n| + 2] == n;
    SliceOfSlice(s, a, a + |n| + 3, 2, |n| + 2);
  }

  /** Where the cursor finds a `${name}` reference and where its `}` is. */
  lemma ReferenceBounds(s: string, st: nat, n: string)
    requires '}' !in n && st + 2 + |n| < |s|
    requires s[st] == '$' && s[st + 1] == '{' && s[st + 2 + |n|] == '}'
    requires s[st + 2..st + 2 + |n|] == n
    ensures FindRef(s, st) == Some(st)
    ensures FindChar(s, '}', st) == Some(st + 2 + |n|)
  {
    FindRefAt(s, st);
    FindCharAt(s, '}', st + 2, st + 2 + |n|);
    assert FindChar(s, '}', st) == FindChar(s, '}', st + 1) == FindChar(s, '}', st + 2);
  }

  /** At a `${name}` reference the cursor emits the value and jumps past the `}`. */
  lemma ReferenceStep(s: string, a: nat, b: nat, n: string, vars: seq<EnvVariable>)
    requires a + 2 <= b < |s|
    requires FindRef(s, a) == Some(a) && FindChar(s, '}', a) == Some(b) && s[a + 2..b] == n
    ensures Lookup(vars, n).None? ==> InterpolateFrom(s, vars, a) == Err("Undefined variable: " + n)
    ensures Lookup(vars, n).Some? ==>
      InterpolateFrom(s, vars, a) == Prepend(Lookup(vars, n).value, InterpolateFrom(s, vars, b + 1))
  {
    match Lookup(vars, n)
    case None =>
    case Some(v) =>
      assert s[a..a] + v == v;
  }

  /** A lone reference to an undefined name fails with that name. */
  lemma UndefinedReference(n: string, vars: seq<EnvVariable>)
    requires '}' !in n && Lookup(vars, n).None?
    ensures Interpolate("${" + n + "}", vars) == Err("Undefined variable: " + n)
  {
    var s := "${" + n + "}";
    assert s[0] == '$' && s[1] == '{' && s[2 + |n|] == '}';
    assert s[2..2 + |n|] == n;
    ReferenceBounds(s, 0, n);
    ReferenceStep(s, 0, 2 + |n|, n, vars);
  }

  /** The cursor over a literal copies it and moves to the end of it. */
  lemma SkipLiteral(s: string, a: nat, t: string, vars: seq<EnvVariable>)
    requires At(s, a, t) && NoRef(t)
    requires EndsWith(t, '$') && a + |t| < |s| ==> s[a + |t|] != '{'
    ensures InterpolateFrom(s, vars, a) == RenderPiece(Lit(t), InterpolateFrom(s, vars, a + |t|), vars)
  {
    LiteralHasNoOpener(s, a, t);
    SkipText(s, vars, a, a + |t|);
    AtSlice(s, a, t);
  }

  /** The cursor over a reference replaces it by its value, or fails when its name is not
      defined. */
  lemma SkipReference(s: string, a: nat, n: string, vars: seq<EnvVariable>)
    requires At(s, a, PieceText(Ref(n))) && '}' !in n
    ensures InterpolateFrom(s, vars, a) == RenderPiece(Ref(n), InterpolateFrom(s, vars, a + |n| + 3), vars)
  {
    ReferenceShape(s, a, n);
    ReferenceBounds(s, a, n);
    ReferenceStep(s, a, a + 2 + |n|, n, vars);
  }

  /** One piece of a template: the cursor's work on it is `RenderPiece`. */
  lemma PieceStep(s: string, a: nat, p: Piece, vars: seq<EnvVariable>)
    requires PieceOk(p) && At(s, a, PieceText(p))
    requires p.Lit? && EndsWith(p.text, '$') && a + |p.text| < |s| ==> s[a + |p.text|] != '{'
    ensures InterpolateFrom(s, vars, a) == RenderPiece(p, InterpolateFrom(s, vars, a + |PieceText(p)|), vars)
  {
    if p.Lit? {
      SkipLiteral(s, a, p.text, vars);
    } else {
      assert |PieceText(p)| == |p.name| + 3;
      SkipReference(s, a, p.name, vars);
    }
  }

  lemma MatchesHead(s: string, a: nat, ps: seq<Piece>)
    requires |ps| > 0 && Matches(s, a, ps) && WellFormed(ps)
    ensures At(s, a, PieceText(ps[0])) && PieceOk(ps[0]) && Matches(s, a + |PieceText(ps[0])|, ps[1..]) && WellFormed(ps[1..])
    ensures ps[0].Lit? && EndsWith(ps[0].text, '$') && a + |ps[0].text| < |s| ==> s[a + |ps[0].text|] != '{'
  {
    if ps[0].Lit? && EndsWith(ps[0].text, '$') && |ps| > 1 {
      var b := a + |ps[0].text|;
      AtSlice(s, b, PieceText(ps[1]));
      assert s[b] == PieceText(ps[1])[0];
    }
  }

  /** The interpolator, run over text laid out as well-formed pieces, computes the
      reference semantics: every value is inserted verbatim and never rescanned. */
  lemma {:induction false} InterpolateMatches(s: string, a: nat, ps: seq<Piece>, vars: seq<EnvVariable>)
    requires Matches(s, a, ps) && WellFormed(ps)
    ensures InterpolateFrom(s, vars, a) == Render(ps, vars)
    decreases |ps|
  {
    if |ps| == 0 {
      CursorAtEnd(s, vars);
    } else {
      MatchesHead(s, a, ps);
      InterpolateMatches(s, a + |PieceText(ps[0])|, ps[1..], vars);
      PiecesStep(s, a, ps, vars);
    }
  }

  /** At the end of the input the cursor has nothing left to copy. */
  lemma CursorAtEnd(s: string, vars: seq<EnvVariable>)
    ensures InterpolateFrom(s, vars, |s|) == Ok("")
  {
    assert FindRef(s, |s|).None?;
    CursorDone(s, vars, |s|);
    assert s[|s|..] == "";
  }

  /** The first piece in front of pieces the cursor already renders. */
  lemma PiecesStep(s: string, a: nat, ps: seq<Piece>, vars: seq<EnvVariable>)
    requires |ps| > 0 && PieceOk(ps[0]) && At(s, a, PieceText(ps[0]))
    requires ps[0].Lit? && EndsWith(ps[0].text, '$') && a + |ps[0].text| < |s| ==> s[a + |ps[0].text|] != '{'
    requires InterpolateFrom(s, vars, a + |PieceText(ps[0])|) == Render(ps[1..], vars)
    ensures InterpolateFrom(s, vars, a) == Render(ps, vars)
  {
    PieceStep(s, a, ps[0], vars);
  }

  lemma InterpolateTemplate(ps: seq<Piece>, vars: seq<EnvVariable>)
    requires WellFormed(ps)
    ensures Interpolate(Template(ps), vars) == Render(ps, vars)
  {
    TemplateMatches("", ps);
    assert "" + Template(ps) == Template(ps);
    InterpolateMatches(Template(ps), 0, ps, vars);
  }

  /** A template succeeds exactly when every name it references is defined. */
  lemma {:induction false} RenderOk(ps: seq<Piece>, vars: seq<EnvVariable>)
    ensures Render(ps, vars).Ok? <==> forall i :: 0 <= i < |ps| && ps[i].Ref? ==> Lookup(vars, ps[i].name).Some?
  {
    if |ps| > 0 {
      RenderOk(ps[1..], vars);
      assert forall i :: 1 <= i < |ps| ==> ps[i] == ps[1..][i - 1];
    }
  }

  /** Text without `${` comes back unchanged. */
  lemma NoReferenceUnchanged(s: string, vars: seq<EnvVariable>)
    requires NoRef(s)
    ensures Interpolate(s, vars) == Ok(s)
  {
    assert FindRef(s, 0).None?;
    assert s[0..] == s;
  }

  /** A `${` with no later `}` is an error that names the whole input. */
  lemma UnterminatedReference(s: string, vars: seq<EnvVariable>, i: nat)
    requires RefAt(s, i) && forall k :: 0 <= k < i ==> !RefAt(s, k)
    requires forall k :: i <= k < |s| ==> s[k] != '}'
    ensures Interpolate(s, vars) == Err("Invalid variable reference: " + s)
  {
    FindRefSkip(s, 0, i);
    FindRefAt(s, i);
  }

  /** Substituted text is not interpolated again: a value that itself reads `${B}` stays. */
  lemma NoRescan()
    ensures Interpolate("${A}", [EnvVariable("A", "${B}")]) == Ok("${B}")
  {
    var ps, vars := [Ref("A")], [EnvVariable("A", "${B}")];
    assert Template(ps) == "${A}";
    InterpolateTemplate(ps, vars);
    assert Lookup(vars, "A") == Some("${B}");
    assert "${B}" + "" == "${B}";
  }

  /** An unknown name is an error naming it, whatever else is defined. */
  lemma UndefinedName()
    ensures Interpolate("${B}", [EnvVariable("A", "v1")]) == Err("Undefined variable: B")
  {
    var ps, vars := [Ref("B")], [EnvVariable("A", "v1")];
    assert Template(ps) == "${B}";
    InterpolateTemplate(ps, vars);
    assert "A" != "B";
    assert Lookup(vars, "B").None?;
  }

  /** A `$` just before a reference stays literal text: only the `${` after it opens. */
  lemma DollarBeforeReference()
    ensures Interpolate("$${A}", [EnvVariable("A", "v")]) == Ok("$v")
  {
    var ps, vars := [Lit("$"), Ref("A")], [EnvVariable("A", "v")];
    assert Template(ps) == "$${A}";
    assert NoRef("$");
    assert WellFormed(ps);
    InterpolateTemplate(ps, vars);
    assert Lookup(vars, "A") == Some("v");
    assert "$" + ("v" + "") == "$v";
  }
}
