/** strip_l_modifier of crt.c: rewriting Windows printf formats in place, in two passes. */
module StripL {

  // ------------------------------------------------- what the two passes compute

  predicate IntegerConv(c: char) {
    c == 'd' || c == 'i' || c == 'o' || c == 'u' || c == 'x' || c == 'X' || c == 'p' || c == 'n' || c == 'm'
  }

  predicate OtherConv(c: char) {
    || c == 'c' || c == 'C' || c == 's' || c == 'S' || c == 'f' || c == 'e' || c == 'E'
    || c == 'g' || c == 'G' || c == 'a' || c == 'A'
  }

  /** The two lists of the code; no letter is in both. */
  lemma Conversions(c: char)
    ensures IntegerConv(c) <==> c in "diouxXpnm"
    ensures OtherConv(c) <==> c in "cCsSfeEgGaA"
    ensures !(IntegerConv(c) && OtherConv(c))
  {
    var x, y := "diouxXpnm", "cCsSfeEgGaA";
    assert IntegerConv(c) ==> exists i :: 0 <= i < |x| && x[i] == c by {
      assert x[0] == 'd' && x[1] == 'i' && x[2] == 'o' && x[3] == 'u' && x[4] == 'x' && x[5] == 'X';
      assert x[6] == 'p' && x[7] == 'n' && x[8] == 'm';
    }
    assert OtherConv(c) ==> exists i :: 0 <= i < |y| && y[i] == c by {
      assert y[0] == 'c' && y[1] == 'C' && y[2] == 's' && y[3] == 'S' && y[4] == 'f' && y[5] == 'e';
      assert y[6] == 'E' && y[7] == 'g' && y[8] == 'G' && y[9] == 'a' && y[10] == 'A';
    }
  }

  /** pend is where in the output the `l` behind lptr went, or -1 for NULL. */
  datatype Scanner = Scanner(out: string, inFormat: bool, pend: int, last: char)

  function Cut(s: string, k: int): string {
    if 0 <= k < |s| then s[..k] + s[k + 1..] else s
  }

  /** One character of the first pass, with the purge of the second already applied. */
  function Next(t: Scanner, c: char): Scanner {
    if !t.inFormat then Scanner(t.out + [c], c == '%', t.pend, c)
    else if IntegerConv(c) then Scanner(Cut(t.out, t.pend) + [c], false, -1, c)
    else if OtherConv(c) then Scanner(t.out + [c], false, -1, c)
    else if c == '%' then Scanner(t.out + [c], t.last != '%', -1, c)
    else if c == 'l' then Scanner(t.out + [c], true, if t.last == 'l' then -1 else |t.out|, c)
    else Scanner(t.out + [c], true, t.pend, c)
  }

  function Scan(t: Scanner, s: string): Scanner
    decreases |s|
  {
    if s == [] then t else Scan(Next(t, s[0]), s[1..])
  }

  const START: Scanner := Scanner("", false, -1, '\0')

  function Stripped(s: string): string {
    Scan(START, s).out
  }

  lemma ScanOne(t: Scanner, c: char)
    ensures Scan(t, [c]) == Next(t, c)
  {
    assert [c][1..] == [];
  }

  lemma ScanTwo(t: Scanner, c: char, d: char)
    ensures Scan(t, [c, d]) == Next(Next(t, c), d)
  {
    assert [c, d][1..] == [d];
    ScanOne(Next(t, c), d);
  }

  lemma {:induction false} ScanConcat(t: Scanner, a: string, b: string)
    ensures Scan(t, a + b) == Scan(Scan(t, a), b)
    decreases |a|
  {
    if a == [] {
      assert a + b == b;
    } else {
      assert (a + b)[0] == a[0] && (a + b)[1..] == a[1..] + b;
      ScanConcat(Next(t, a[0]), a[1..], b);
    }
  }

  // ----------------------------------------------------------------- printf formats

  /** A format: characters other than %, the pair %%, and conversion specifications with flags,
      width, precision and modifiers other than l (opts), up to two l, and a conversion. */
  datatype Piece = Literal(c: char) | Percent | Spec(opts: string, ls: nat, conv: char)

  /** The conversions of section 7.19.6.1 of ISO/IEC 9899:1999 include F, which the code does not
      list among its own. */
  predicate WellFormed(p: Piece) {
    match p
    case Literal(c) => c != '%' && c != '\0'
    case Percent => true
    case Spec(opts, ls, conv) =>
      && (forall i :: 0 <= i < |opts| ==> Plain(opts[i]))
      && ls <= 2 && (IntegerConv(conv) || OtherConv(conv) || conv == 'F')
  }

  /** A character of a specification that is neither an l nor a conversion. */
  predicate Plain(c: char) {
    !IntegerConv(c) && !OtherConv(c) && c != 'F' && c != '%' && c != 'l' && c != '\0'
  }

  function Ls(n: nat): string {
    if n == 0 then "" else "l" + Ls(n - 1)
  }

  function RenderPiece(p: Piece): string {
    match p
    case Literal(c) => [c]
    case Percent => "%%"
    case Spec(opts, ls, conv) => "%" + opts + Ls(ls) + [conv]
  }

  function Render(f: seq<Piece>): string {
    if f == [] then "" else RenderPiece(f[0]) + Render(f[1..])
  }

  /** The intended rewriting: Windows long is 32 bits wide, so a single l is dropped from integer
      conversions; nothing else changes. */
  function StripPiece(p: Piece): Piece {
    if p.Spec? && p.ls == 1 && IntegerConv(p.conv) then p.(ls := 0) else p
  }

  function Strip(f: seq<Piece>): (r: seq<Piece>)
    ensures |r| == |f| && forall i :: 0 <= i < |f| ==> r[i] == StripPiece(f[i])
  {
    if f == [] then [] else [StripPiece(f[0])] + Strip(f[1..])
  }

  // ----------------------------------------------- when the rewriting is the intended one

  /** Inside a specification the code never left, because of F: is an l pending, and was the last
      character an l? */
  datatype Mode = Clear | Stuck(pend: bool, lastL: bool)

  function ModeAfter(m: Mode, p: Piece): Mode {
    match p
    case Literal(c) =>
      if m.Clear? || IntegerConv(c) || OtherConv(c) then Clear
      else if c == 'l' then Stuck(!m.lastL, true)
      else Stuck(m.pend, false)
    case Percent => Clear
    case Spec(_, ls, conv) => if conv == 'F' then Stuck(ls == 1, false) else Clear
  }

  /** An l too many is dropped here. */
  predicate Trap(m: Mode, p: Piece) {
    m.Stuck? && m.pend && p.Literal? && IntegerConv(p.c)
  }

  /** How often an F conversion is followed by literal text in which a lone l comes before a letter
      of the integer class, with no other conversion letter in between. */
  function Traps(m: Mode, f: seq<Piece>): nat
    decreases |f|
  {
    if f == [] then 0
    else (if Trap(m, f[0]) then 1 else 0) + Traps(ModeAfter(m, f[0]), f[1..])
  }

  /** The scanner is in the mode the pieces read so far leave it in. */
  predicate Agrees(t: Scanner, m: Mode) {
    match m
    case Clear => !t.inFormat && t.pend == -1
    case Stuck(pend, lastL) =>
      && t.inFormat && t.last != '%' && (lastL <==> t.last == 'l')
      && (if pend then 0 <= t.pend < |t.out| else t.pend == -1)
  }

  lemma {:induction false} ScanPlain(t: Scanner, s: string)
    requires t.inFormat && forall i :: 0 <= i < |s| ==> Plain(s[i])
    ensures Scan(t, s) == t.(out := t.out + s, last := if s == [] then t.last else s[|s| - 1])
    decreases |s|
  {
    if s == [] {
      assert t.out + s == t.out;
    } else {
      var t' := Next(t, s[0]);
      ScanPlain(t', s[1..]);
      assert t.out + [s[0]] + s[1..] == t.out + s;
    }
  }

  /** The scanner at the conversion character of a specification. */
  function AtConv(t: Scanner, opts: string, ls: nat): Scanner {
    var out := t.out + "%" + opts + Ls(ls);
    Scanner(out, true, if ls == 1 then |out| - 1 else -1,
            if ls > 0 then 'l' else if opts == [] then '%' else opts[|opts| - 1])
  }

  lemma ScanSpecBody(t: Scanner, m: Mode, opts: string, ls: nat)
    requires Agrees(t, m) && WellFormed(Spec(opts, ls, 'd'))
    ensures Scan(t, "%" + opts + Ls(ls)) == AtConv(t, opts, ls)
  {
    var t1 := Next(t, '%');
    assert t1 == Scanner(t.out + "%", true, -1, '%');
    var t2 := Scan(t1, opts);
    ScanPlain(t1, opts);
    ScanConcat(t, "%" + opts, Ls(ls));
    ScanConcat(t, "%", opts);
    ScanOne(t, '%');
    assert ("%" + opts) + Ls(ls) == "%" + opts + Ls(ls);
    assert t2.last != 'l';
    ScanLs(t2, ls);
  }

  lemma ScanLs(t: Scanner, ls: nat)
    requires t.inFormat && t.last != 'l' && ls <= 2 && t.pend == -1
    ensures Scan(t, Ls(ls)) == Scanner(t.out + Ls(ls), true, if ls == 1 then |t.out| else -1,
                                       if ls > 0 then 'l' else t.last)
  {
    if ls == 0 {
      assert t.out + Ls(0) == t.out;
    } else if ls == 1 {
      assert Ls(1) == "l";
      ScanOne(t, 'l');
    } else {
      assert Ls(2) == "l" + Ls(1) == ['l', 'l'];
      ScanTwo(t, 'l', 'l');
      assert t.out + "l" + "l" == t.out + ['l', 'l'];
    }
  }

  lemma ScanPercent(t: Scanner, m: Mode)
    requires Agrees(t, m)
    ensures Scan(t, "%%") == Scanner(t.out + "%%", false, -1, '%')
  {
    ScanTwo(t, '%', '%');
    assert "%%" == ['%', '%'];
    assert t.out + "%" + "%" == t.out + "%%";
  }

  lemma ScanSpec(t: Scanner, m: Mode, p: Piece)
    requires Agrees(t, m) && WellFormed(p) && p.Spec?
    ensures Agrees(Scan(t, RenderPiece(p)), ModeAfter(m, p))
    ensures Scan(t, RenderPiece(p)).out == t.out + RenderPiece(StripPiece(p))
  {
    var body := "%" + p.opts + Ls(p.ls);
    var t1 := AtConv(t, p.opts, p.ls);
    ScanSpecBody(t, m, p.opts, p.ls);
    ScanConcat(t, body, [p.conv]);
    ScanOne(t1, p.conv);
    assert t1.out == t.out + body;
    Assoc(t.out, body, [p.conv]);
    assert Scan(t, RenderPiece(p)) == Next(t1, p.conv);
    AtConversion(t, p, t1);
  }

  lemma AtConversion(t: Scanner, p: Piece, t1: Scanner)
    requires WellFormed(p) && p.Spec? && t1 == AtConv(t, p.opts, p.ls)
    requires t1.out + [p.conv] == t.out + RenderPiece(p)
    ensures Agrees(Next(t1, p.conv), ModeAfter(Clear, p))
    ensures Next(t1, p.conv).out == t.out + RenderPiece(StripPiece(p))
  {
    if IntegerConv(p.conv) {
      if p.ls == 1 {
        CutLast(t.out, p.opts, p.conv);
      }
    } else if OtherConv(p.conv) {
    } else {
      assert p.conv == 'F';
    }
  }

  lemma CutLast(out: string, opts: string, conv: char)
    ensures var b := out + "%" + opts + Ls(1);
            Cut(b, |b| - 1) + [conv] == out + RenderPiece(Spec(opts, 0, conv))
  {
    var b := out + "%" + opts + Ls(1);
    assert Ls(1) == "l" && Ls(0) == "";
    assert Cut(b, |b| - 1) == out + "%" + opts;
    assert out + "%" + opts + [conv] == out + ("%" + opts + "" + [conv]);
  }

  /** One piece: it is rendered as intended, up to the l that a trap takes from earlier output. */
  lemma ScanPiece(t: Scanner, m: Mode, p: Piece)
    requires Agrees(t, m) && WellFormed(p)
    ensures Agrees(Scan(t, RenderPiece(p)), ModeAfter(m, p))
    ensures Scan(t, RenderPiece(p)).out
         == (if Trap(m, p) then Cut(t.out, t.pend) else t.out) + RenderPiece(StripPiece(p))
  {
    match p
    case Literal(c) => ScanOne(t, c);
    case Percent => ScanPercent(t, m);
    case Spec(_, _, _) => ScanSpec(t, m, p);
  }

  ghost predicate Format(f: seq<Piece>) {
    forall i :: 0 <= i < |f| ==> WellFormed(f[i])
  }

  lemma RenderStrip(f: seq<Piece>)
    requires f != []
    ensures Render(Strip(f)) == RenderPiece(StripPiece(f[0])) + Render(Strip(f[1..]))
  {
    assert Strip(f)[1..] == Strip(f[1..]);
  }

  lemma Lengths(t: Scanner, m: Mode, p: Piece, out: string)
    requires Agrees(t, m)
    requires out == (if Trap(m, p) then Cut(t.out, t.pend) else t.out) + RenderPiece(StripPiece(p))
    ensures |out| == |t.out| + |RenderPiece(StripPiece(p))| - (if Trap(m, p) then 1 else 0)
  {
  }

  lemma Assoc(a: string, b: string, c: string)
    ensures a + b + c == a + (b + c)
  {
  }

  /** Every trap costs one character; without traps the output is the intended one. */
  lemma {:induction false} ScanFormat(t: Scanner, m: Mode, f: seq<Piece>)
    requires Agrees(t, m) && Format(f)
    ensures |Scan(t, Render(f)).out| == |t.out| + |Render(Strip(f))| - Traps(m, f)
    ensures Traps(m, f) == 0 ==> Scan(t, Render(f)).out == t.out + Render(Strip(f))
    decreases |f|
  {
    if f == [] {
      assert t.out + "" == t.out;
    } else {
      var p, rest := f[0], f[1..];
      ScanConcat(t, RenderPiece(p), Render(rest));
      ScanPiece(t, m, p);
      var t' := Scan(t, RenderPiece(p));
      ScanFormat(t', ModeAfter(m, p), rest);
      RenderStrip(f);
      Lengths(t, m, p, t'.out);
      Assoc(t.out, RenderPiece(StripPiece(p)), Render(Strip(rest)));
    }
  }

  /** strip_l_modifier turns a well-formed format into the intended one exactly when no F
      conversion sets a trap for the text behind it. */
  lemma StrippedAsIntended(f: seq<Piece>)
    requires Format(f)
    ensures Stripped(Render(f)) == Render(Strip(f)) <==> Traps(Clear, f) == 0
  {
    ScanFormat(START, Clear, f);
  }

  /** Without F conversions there is none. */
  lemma {:induction false} NoFNoTraps(f: seq<Piece>)
    requires Format(f) && forall i :: 0 <= i < |f| && f[i].Spec? ==> f[i].conv != 'F'
    ensures Traps(Clear, f) == 0
    ensures Stripped(Render(f)) == Render(Strip(f))
  {
    if f != [] {
      NoFNoTraps(f[1..]);
    }
    StrippedAsIntended(f);
  }

  /** With one there can be: an l of the literal text goes. */
  lemma FConversionBreaks()
    ensures var f := [Spec("", 0, 'F'), Literal('l'), Literal('d')];
            Format(f) && Strip(f) == f && Stripped(Render(f)) != Render(f)
  {
    var f := [Spec("", 0, 'F'), Literal('l'), Literal('d')];
    assert Strip(f) == f;
    var m1 := ModeAfter(Clear, f[0]);
    var m2 := ModeAfter(m1, f[1]);
    assert Trap(m2, f[2]);
    assert f[1..] == [f[1], f[2]] && f[1..][1..] == [f[2]];
    assert Traps(m2, [f[2]]) >= 1;
    assert Traps(m1, f[1..]) >= 1;
    assert Traps(Clear, f) == Traps(m1, f[1..]);
    StrippedAsIntended(f);
  }

  // ------------------------------------------- what comes out of any format, and of a second run

  /** An l pending before rest is dropped: the next letter that matters is of the integer class. */
  predicate Taken(rest: seq<Piece>)
    decreases |rest|
  {
    rest != [] && rest[0].Literal? &&
    (IntegerConv(rest[0].c) || (!OtherConv(rest[0].c) && rest[0].c != 'l' && Taken(rest[1..])))
  }

  /** The first piece as it comes out: a literal l, or the l of an F conversion, may be dropped. */
  function OutPiece(m: Mode, p: Piece, rest: seq<Piece>): seq<Piece> {
    if p == Literal('l') && m.Stuck? && !m.lastL && Taken(rest) then []
    else if p.Spec? && p.ls == 1 && p.conv == 'F' && Taken(rest) then [p.(ls := 0)]
    else [StripPiece(p)]
  }

  /** The format that comes out, whatever comes in. */
  function Outcome(m: Mode, f: seq<Piece>): seq<Piece>
    decreases |f|
  {
    if f == [] then [] else OutPiece(m, f[0], f[1..]) + Outcome(ModeAfter(m, f[0]), f[1..])
  }

  lemma {:induction false} RenderConcat(f: seq<Piece>, g: seq<Piece>)
    ensures Render(f + g) == Render(f) + Render(g)
  {
    if f == [] {
      assert f + g == g;
    } else {
      assert (f + g)[0] == f[0] && (f + g)[1..] == f[1..] + g;
      RenderConcat(f[1..], g);
      Assoc(RenderPiece(f[0]), Render(f[1..]), Render(g));
    }
  }

  lemma RenderOne(p: Piece)
    ensures Render([p]) == RenderPiece(p)
  {
    assert [p][1..] == [] && RenderPiece(p) + "" == RenderPiece(p);
  }

  lemma {:induction false} OutcomeFormat(m: Mode, f: seq<Piece>)
    requires Format(f)
    ensures Format(Outcome(m, f))
    ensures forall i :: 0 <= i < |Outcome(m, f)| ==> StripPiece(Outcome(m, f)[i]) == Outcome(m, f)[i]
    decreases |f|
  {
    if f != [] {
      OutcomeFormat(ModeAfter(m, f[0]), f[1..]);
    }
  }

  /** The output so far, without its pending l if that will be dropped. */
  function Base(t: Scanner, m: Mode, rest: seq<Piece>): string {
    if m.Stuck? && m.pend && Taken(rest) then Cut(t.out, t.pend) else t.out
  }

  lemma CutSnoc(s: string, k: int, c: char)
    requires 0 <= k < |s|
    ensures Cut(s + [c], k) == Cut(s, k) + [c]
  {
  }

  lemma CutEnd(s: string, c: char)
    ensures Cut(s + [c], |s|) == s
  {
  }

  lemma LiteralOut(t: Scanner, m: Mode, c: char, rest: seq<Piece>)
    requires Agrees(t, m) && c != '%'
    ensures Base(Next(t, c), ModeAfter(m, Literal(c)), rest)
         == Base(t, m, [Literal(c)] + rest) + Render(OutPiece(m, Literal(c), rest))
  {
    var p, f := Literal(c), [Literal(c)] + rest;
    assert f[0] == p && f[1..] == rest;
    RenderOne(p);
    if m.Clear? {
      assert OutPiece(m, p, rest) == [p];
    } else if IntegerConv(c) || OtherConv(c) {
      assert OutPiece(m, p, rest) == [p] && (Taken(f) <==> IntegerConv(c));
    } else if c == 'l' {
      LiteralL(t, m, rest);
    } else {
      assert OutPiece(m, p, rest) == [p] && Taken(f) == Taken(rest);
      if m.pend {
        CutSnoc(t.out, t.pend, c);
      }
    }
  }

  lemma LiteralL(t: Scanner, m: Mode, rest: seq<Piece>)
    requires Agrees(t, m) && m.Stuck?
    ensures Base(Next(t, 'l'), ModeAfter(m, Literal('l')), rest)
         == Base(t, m, [Literal('l')] + rest) + Render(OutPiece(m, Literal('l'), rest))
  {
    var p, f := Literal('l'), [Literal('l')] + rest;
    assert f[0] == p && !Taken(f);
    RenderOne(p);
    if !m.lastL && Taken(rest) {
      assert OutPiece(m, p, rest) == [] && t.out + "" == t.out;
      CutEnd(t.out, 'l');
    } else {
      assert OutPiece(m, p, rest) == [p];
    }
  }

  /** Behind an F conversion the scanner is still inside it, with its l pending. */
  lemma ScanF(t: Scanner, m: Mode, opts: string, ls: nat)
    requires Agrees(t, m) && WellFormed(Spec(opts, ls, 'F'))
    ensures Scan(t, RenderPiece(Spec(opts, ls, 'F')))
         == Scanner(t.out + RenderPiece(Spec(opts, ls, 'F')), true, if ls == 1 then |t.out| + 1 + |opts| else -1, 'F')
  {
    var body, t1 := "%" + opts + Ls(ls), AtConv(t, opts, ls);
    assert Scan(t, body + "F") == Next(t1, 'F') by {
      ScanSpecBody(t, m, opts, ls);
      ScanConcat(t, body, "F");
      ScanOne(t1, 'F');
    }
    assert t1.out == t.out + body by {
      Assoc(t.out, "%", opts);
      Assoc(t.out, "%" + opts, Ls(ls));
    }
    Assoc(t.out, body, "F");
    assert ls == 1 ==> Ls(ls) == "l";
  }

  lemma CutF(out: string, opts: string)
    ensures Cut(out + RenderPiece(Spec(opts, 1, 'F')), |out| + 1 + |opts|) == out + RenderPiece(Spec(opts, 0, 'F'))
  {
    assert Ls(1) == "l" && Ls(0) == "";
    var s := out + RenderPiece(Spec(opts, 1, 'F'));
    var k := |out| + 1 + |opts|;
    assert s[..k] == out + "%" + opts && s[k + 1..] == "F";
  }

  lemma FOut(t: Scanner, m: Mode, p: Piece, rest: seq<Piece>)
    requires Agrees(t, m) && WellFormed(p) && p.Spec? && p.conv == 'F'
    ensures Base(Scan(t, RenderPiece(p)), ModeAfter(m, p), rest) == t.out + Render(OutPiece(m, p, rest))
  {
    ScanF(t, m, p.opts, p.ls);
    var t' := Scan(t, RenderPiece(p));
    assert t'.out == t.out + RenderPiece(p);
    if p.ls == 1 && Taken(rest) {
      var q := Spec(p.opts, 0, 'F');
      assert OutPiece(m, p, rest) == [q];
      CutF(t.out, p.opts);
      RenderOne(q);
    } else {
      assert OutPiece(m, p, rest) == [p];
      RenderOne(p);
    }
  }

  lemma SpecOut(t: Scanner, m: Mode, p: Piece, rest: seq<Piece>)
    requires Agrees(t, m) && WellFormed(p) && !p.Literal?
    ensures Base(Scan(t, RenderPiece(p)), ModeAfter(m, p), rest) == t.out + Render(OutPiece(m, p, rest))
  {
    if p.Spec? && p.conv == 'F' {
      FOut(t, m, p, rest);
    } else {
      assert OutPiece(m, p, rest) == [StripPiece(p)] && ModeAfter(m, p) == Clear && !Trap(m, p);
      ScanPiece(t, m, p);
      RenderOne(StripPiece(p));
    }
  }

  lemma PieceOut(t: Scanner, m: Mode, p: Piece, rest: seq<Piece>, f: seq<Piece>)
    requires Agrees(t, m) && WellFormed(p) && f == [p] + rest
    ensures Base(Scan(t, RenderPiece(p)), ModeAfter(m, p), rest) == Base(t, m, f) + Render(OutPiece(m, p, rest))
  {
    if p.Literal? {
      ScanOne(t, p.c);
      LiteralOut(t, m, p.c, rest);
    } else {
      SpecOut(t, m, p, rest);
    }
  }

  /** strip_l_modifier on any well-formed format: again a well-formed format, Outcome(Clear, f). */
  lemma {:induction false} ScanOutcome(t: Scanner, m: Mode, f: seq<Piece>)
    requires Agrees(t, m) && Format(f)
    ensures Scan(t, Render(f)).out == Base(t, m, f) + Render(Outcome(m, f))
    decreases |f|
  {
    if f == [] {
      assert t.out + "" == t.out;
    } else {
      var p, rest := f[0], f[1..];
      var t', m', o := Scan(t, RenderPiece(p)), ModeAfter(m, p), OutPiece(m, p, rest);
      assert f == [p] + rest;
      assert Scan(t, Render(f)) == Scan(t', Render(rest)) by { ScanConcat(t, RenderPiece(p), Render(rest)); }
      assert Agrees(t', m') by { ScanPiece(t, m, p); }
      assert Base(t', m', rest) == Base(t, m, f) + Render(o) by { PieceOut(t, m, p, rest, f); }
      assert Render(Outcome(m, f)) == Render(o) + Render(Outcome(m', rest)) by { RenderConcat(o, Outcome(m', rest)); }
      ScanOutcome(t', m', rest);
      Assoc(Base(t, m, f), Render(o), Render(Outcome(m', rest)));
    }
  }

  lemma StrippedIs(f: seq<Piece>)
    requires Format(f)
    ensures Stripped(Render(f)) == Render(Outcome(Clear, f))
  {
    ScanOutcome(START, Clear, f);
    assert "" + Render(Outcome(Clear, f)) == Render(Outcome(Clear, f));
  }

  /** Behind a pending l: was another lone l pending when it came? */
  function UnderAfter(m: Mode, under: bool, p: Piece): bool {
    match p
    case Literal(c) =>
      if m.Clear? || IntegerConv(c) || OtherConv(c) then false
      else if c == 'l' then !m.lastL && m.pend
      else under
    case _ => false
  }

  /** How many traps take an l and leave the next one: an F conversion followed by two lone l's, the
      first of which may be its own, before a letter of the integer class. */
  function Retraps(m: Mode, under: bool, f: seq<Piece>): nat
    decreases |f|
  {
    if f == [] then 0
    else (if Trap(m, f[0]) && under then 1 else 0) + Retraps(ModeAfter(m, f[0]), UnderAfter(m, under, f[0]), f[1..])
  }

  lemma {:induction false} RetrapsAreTraps(m: Mode, under: bool, f: seq<Piece>)
    ensures Retraps(m, under, f) <= Traps(m, f)
    decreases |f|
  {
    if f != [] {
      RetrapsAreTraps(ModeAfter(m, f[0]), UnderAfter(m, under, f[0]), f[1..]);
    }
  }

  /** The mode of a second run: as if the pending l were not there, if it was dropped. */
  function SecondMode(m: Mode, under: bool, rest: seq<Piece>): Mode {
    if m.Stuck? && m.pend && Taken(rest) then Stuck(under, false) else m
  }

  /** One piece of the second run: it meets a trap exactly where the first run left one, and goes on
      in the mode of the rest. */
  lemma SecondPiece(m: Mode, under: bool, p: Piece, rest: seq<Piece>)
    requires WellFormed(p)
    ensures var o, m2 := OutPiece(m, p, rest), SecondMode(m, under, [p] + rest);
            var next := SecondMode(ModeAfter(m, p), UnderAfter(m, under, p), rest);
            if o == [] then m2 == next && !(Trap(m, p) && under)
            else |o| == 1 && ModeAfter(m2, o[0]) == next && (Trap(m2, o[0]) <==> Trap(m, p) && under)
  {
    assert ([p] + rest)[1..] == rest;
  }

  lemma {:induction false} TrapsLeft(m: Mode, under: bool, f: seq<Piece>)
    requires Format(f)
    ensures Traps(SecondMode(m, under, f), Outcome(m, f)) == Retraps(m, under, f)
    decreases |f|
  {
    if f != [] {
      var p, rest := f[0], f[1..];
      var o, g := OutPiece(m, p, rest), Outcome(ModeAfter(m, p), rest);
      assert f == [p] + rest;
      SecondPiece(m, under, p, rest);
      TrapsLeft(ModeAfter(m, p), UnderAfter(m, under, p), rest);
      if o == [] {
        assert o + g == g;
      } else {
        assert (o + g)[0] == o[0] && (o + g)[1..] == g;
      }
    }
  }

  lemma {:induction false} StripFixed(f: seq<Piece>)
    requires forall i :: 0 <= i < |f| ==> StripPiece(f[i]) == f[i]
    ensures Strip(f) == f
  {
  }

  /** Stripping a well-formed format twice is stripping it once if and only if no trap leaves another
      lone l behind; in particular wherever the rewriting is the intended one. */
  lemma StripTwice(f: seq<Piece>)
    requires Format(f)
    ensures Stripped(Stripped(Render(f))) == Stripped(Render(f)) <==> Retraps(Clear, false, f) == 0
    ensures Traps(Clear, f) == 0 ==> Stripped(Stripped(Render(f))) == Stripped(Render(f))
  {
    var g := Outcome(Clear, f);
    StrippedIs(f);
    OutcomeFormat(Clear, f);
    StripFixed(g);
    ScanFormat(START, Clear, g);
    TrapsLeft(Clear, false, f);
    RetrapsAreTraps(Clear, false, f);
  }

  /** It is not always: "%Fl ld" becomes "%Fl d", and that "%F d". */
  lemma StripTwiceBreaks(f: seq<Piece>, once: string, twice: string)
    requires f == [Spec("", 0, 'F'), Literal('l'), Literal(' '), Literal('l'), Literal('d')]
    requires once == "%Fl d" && twice == "%F d"
    ensures Format(f) && Stripped(Render(f)) == once && Stripped(once) == twice != once
  {
    RenderFive(f);
    StripOf(Render(f));
    StripOf(once);
  }

  lemma RenderFive(f: seq<Piece>)
    requires f == [Spec("", 0, 'F'), Literal('l'), Literal(' '), Literal('l'), Literal('d')]
    ensures Render(f) == "%Fl ld"
  {
    assert Ls(0) == "" && RenderPiece(f[0]) == "%F";
    RenderOne(Literal('d'));
    assert f[3..][1..] == [Literal('d')] && Render(f[3..]) == "l" + "d";
    assert f[2..][1..] == f[3..] && Render(f[2..]) == " " + "ld";
    assert f[1..][1..] == f[2..] && Render(f[1..]) == "l" + " ld";
  }

  /** The scan of a string that begins with a bare F conversion, followed character by character. */
  lemma StripOf(s: string)
    requires s == "%Fl ld" || s == "%Fl d"
    ensures Stripped(s) == if s == "%Fl ld" then "%Fl d" else "%F d"
  {
    var t := Scanner("%Fl ", true, 2, ' ');
    ScanTwo(START, '%', 'F');
    ScanTwo(Scanner("%F", true, -1, 'F'), 'l', ' ');
    ScanConcat(START, "%F", "l ");
    assert "%F" + "l " == "%Fl ";
    assert Scan(START, "%Fl ") == t;
    if s == "%Fl d" {
      assert s == "%Fl " + "d";
      ScanConcat(START, "%Fl ", "d");
      ScanOne(t, 'd');
    } else {
      assert s == "%Fl " + "ld";
      ScanConcat(START, "%Fl ", "ld");
      ScanTwo(t, 'l', 'd');
    }
  }

  // ---------------------------------------------------------------- the code in place

  /** What the second pass keeps. */
  function Purge(s: string): string {
    if s == [] then "" else (if s[0] == '\0' then "" else [s[0]]) + Purge(s[1..])
  }

  lemma {:induction false} PurgeConcat(a: string, b: string)
    ensures Purge(a + b) == Purge(a) + Purge(b)
  {
    if a == [] {
      assert a + b == b;
    } else {
      assert (a + b)[1..] == a[1..] + b;
      PurgeConcat(a[1..], b);
    }
  }

  lemma PurgeSnoc(s: string, c: char)
    ensures Purge(s + [c]) == if c == '\0' then Purge(s) else Purge(s) + [c]
  {
    PurgeConcat(s, [c]);
  }

  /** Overwriting a character by NUL removes just it from what is kept. */
  lemma PurgeCut(s: string, k: nat)
    requires k < |s| && s[k] != '\0'
    ensures Purge(s[k := '\0']) == Cut(Purge(s), |Purge(s[..k])|)
  {
    var a, b := s[..k], s[k + 1..];
    assert s == a + ([s[k]] + b) && s[k := '\0'] == a + (['\0'] + b);
    PurgeMid(a, s[k], b);
    PurgeMid(a, '\0', b);
    CutMid(Purge(a), s[k], Purge(b));
  }

  lemma PurgeMid(a: string, c: char, b: string)
    ensures Purge(a + ([c] + b)) == Purge(a) + ((if c == '\0' then "" else [c]) + Purge(b))
  {
    PurgeConcat(a, [c] + b);
    assert ([c] + b)[1..] == b;
  }

  lemma CutMid(x: string, c: char, y: string)
    ensures Cut(x + ([c] + y), |x|) == x + ("" + y)
  {
  }

  lemma ScanSnoc(s: string, i: nat)
    requires i < |s|
    ensures Scan(START, s[..i + 1]) == Next(Scan(START, s[..i]), s[i])
  {
    assert s[..i + 1] == s[..i] + [s[i]];
    ScanConcat(START, s[..i], [s[i]]);
    ScanOne(Scan(START, s[..i]), s[i]);
  }

  /** The variables of the first pass stand for this scanner. */
  predicate Stands(b: string, inFormat: bool, lptr: int, last: char, t: Scanner) {
    && Purge(b) == t.out && inFormat == t.inFormat && last == t.last
    && if lptr == -1 then t.pend == -1
       else 0 <= lptr < |b| && b[lptr] == 'l' && t.pend == |Purge(b[..lptr])|
  }

  /** One turn of the first pass on the text read so far. */
  method Turn(a: array<char>, ptr: nat, inFormat0: bool, lptr0: int, last0: char, ghost t: Scanner)
    returns (inFormat: bool, lptr: int, last: char)
    requires ptr < a.Length && a[ptr] != '\0' && Stands(a[..ptr], inFormat0, lptr0, last0, t)
    modifies a
    ensures a[ptr..] == old(a[ptr..])
    ensures Stands(a[..ptr + 1], inFormat, lptr, last, Next(t, old(a[ptr])))
  {
    var c := a[ptr];
    ghost var b := a[..ptr];
    PurgeSnoc(b, c);
    assert a[..ptr + 1] == b + [c];
    inFormat, lptr := inFormat0, lptr0;
    if !inFormat {
      if c == '%' {
        inFormat := true;
      }
    } else if IntegerConv(c) {
      if lptr != -1 {
        PurgeCut(b, lptr);
        a[lptr] := '\0';
        assert a[..ptr] == b[lptr0 := '\0'] && a[..ptr + 1] == a[..ptr] + [c];
        PurgeSnoc(a[..ptr], c);
        lptr := -1;
      }
      inFormat := false;
    } else if OtherConv(c) {
      lptr, inFormat := -1, false;
    } else if c == '%' {
      lptr := -1;
      inFormat := last0 != '%';
    } else if c == 'l' {
      lptr := if last0 == 'l' then -1 else ptr;
    }
    assert a[..ptr + 1][..ptr] == a[..ptr];
    assert lptr != -1 && lptr < ptr ==> a[..ptr + 1][..lptr] == b[..lptr];
    last := c;
  }

  /** Replaces the superfluous l by NUL. */
  method FirstPass(a: array<char>, ghost s: string) returns (end: nat)
    requires |s| < a.Length && a[..|s|] == s && a[|s|] == '\0' && '\0' !in s
    modifies a
    ensures end == |s| && Purge(a[..end]) == Stripped(s) && a[end..] == old(a[end..])
  {
    var ptr, inFormat, lptr, last := 0, false, -1, '\0';
    assert s[..0] == [];
    assert s != [] ==> a[..|s|][0] == s[0] && s[0] in s;
    while a[ptr] != '\0'
      invariant 0 <= ptr <= |s| && a[ptr..] == old(a[ptr..])
      invariant ptr < |s| ==> a[ptr] != '\0'
      invariant Stands(a[..ptr], inFormat, lptr, last, Scan(START, s[..ptr]))
      decreases |s| - ptr
    {
      assert a[ptr] == a[ptr..][0] == old(a[ptr..])[0] == old(a[..|s|])[ptr];
      ScanSnoc(s, ptr);
      ghost var rest := a[ptr..];
      inFormat, lptr, last := Turn(a, ptr, inFormat, lptr, last, Scan(START, s[..ptr]));
      ptr := ptr + 1;
      assert a[ptr..] == rest[1..];
      assert a[ptr] == a[ptr..][0] == old(a[ptr..])[0];
      if ptr < |s| {
        assert old(a[..|s|])[ptr] == s[ptr] && s[ptr] in s;
      }
    }
    assert s[..ptr] == s;
    end := ptr;
  }

  /** One turn of the second pass, with done already in place. */
  method KeepOrSkip(a: array<char>, wptr0: nat, ptr: nat, ghost done: string) returns (wptr: nat)
    requires wptr0 <= ptr < a.Length && a[..wptr0] == done
    modifies a
    ensures wptr <= ptr + 1
    ensures a[..wptr] == if old(a[ptr]) == '\0' then done else done + [old(a[ptr])]
    ensures forall k :: ptr < k < a.Length ==> a[k] == old(a[k])
  {
    wptr := wptr0;
    if a[ptr] != '\0' {
      a[wptr] := a[ptr];
      wptr := wptr + 1;
    }
  }

  /** The loop of the second pass. */
  method PurgeLoop(a: array<char>, end: nat, ghost b: string) returns (wptr: nat)
    requires end < a.Length && a[..end] == b
    modifies a
    ensures wptr <= end && a[..wptr] == Purge(b)
    ensures forall k :: end <= k < a.Length ==> a[k] == old(a[k])
  {
    ghost var done := "";
    wptr := 0;
    var ptr := 0;
    while ptr < end
      invariant 0 <= wptr <= ptr <= end
      invariant a[..wptr] == done == Purge(b[..ptr])
      invariant forall k :: ptr <= k < a.Length ==> a[k] == old(a[k])
    {
      PurgeNext(b, ptr);
      wptr := KeepOrSkip(a, wptr, ptr, done);
      ptr := ptr + 1;
      done := a[..wptr];
    }
    assert b[..end] == b;
  }

  /** Purges the NULs and terminates the string. */
  method SecondPass(a: array<char>, end: nat)
    requires end < a.Length
    modifies a
    ensures var r := old(Purge(a[..end])); |r| <= end && a[..|r|] == r && a[|r|] == '\0'
    ensures a[end + 1..] == old(a[end + 1..])
  {
    var wptr := PurgeLoop(a, end, a[..end]);
    a[wptr] := '\0';
  }

  lemma PurgeNext(b: string, k: nat)
    requires k < |b|
    ensures Purge(b[..k + 1]) == if b[k] == '\0' then Purge(b[..k]) else Purge(b[..k]) + [b[k]]
  {
    var a, c := b[..k], b[k];
    assert b[..k + 1] == a + [c];
    PurgeSnoc(a, c);
  }

  method StripLModifier(a: array<char>, ghost s: string)
    requires |s| < a.Length && a[..|s|] == s && a[|s|] == '\0' && '\0' !in s
    modifies a
    ensures |Stripped(s)| <= |s| && a[..|Stripped(s)|] == Stripped(s) && a[|Stripped(s)|] == '\0'
    ensures a[|s| + 1..] == old(a[|s| + 1..])
  {
    ghost var rest := a[|s|..];
    var end := FirstPass(a, s);
    assert a[end + 1..] == rest[1..];
    SecondPass(a, end);
  }
}
