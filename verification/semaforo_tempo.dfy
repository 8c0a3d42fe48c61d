/** `tempoFormatado` of the status dashboard: a duration in seconds shown
    as "⟨h⟩h⟨mm⟩m⟨ss⟩s", "⟨m⟩m⟨ss⟩s" or "⟨s⟩s", and a reader for that
    format that gives the duration back. */
module Tempo {
  import opened Wrappers
  import opened Text
  import Arith

  /** `Number(x) || 0` on the durations the dashboard receives: a missing
      or non-numeric value is `None` and reads as zero. */
  function AsSeconds(v: Option<nat>): (r: nat)
    ensures v.Some? ==> r == v.value
    ensures v.None? ==> r == 0
  {
    v.GetOr(0)
  }

  datatype Hms = Hms(h: nat, m: nat, s: nat)

  /** Hours, minutes and seconds: they add back up to the input, and the
      minutes and seconds are below 60. */
  function Split(secs: nat): (r: Hms)
    ensures r.h * 3600 + r.m * 60 + r.s == secs
    ensures r.m < 60 && r.s < 60
  {
    var h, rest := secs / 3600, secs % 3600;
    assert secs == h * 3600 + rest && rest < 3600;
    var m, s := rest / 60, rest % 60;
    assert rest == m * 60 + s && m < 60;
    assert secs % 60 == s by {
      assert secs == (h * 60 + m) * 60 + s;
    }
    Hms(h, m, secs % 60)
  }

  function TempoFormatado(secs: nat): string
  {
    var t := Split(secs);
    if t.h > 0 then NatToString(t.h) + "h" + Pad2(NatToString(t.m)) + "m" + Pad2(NatToString(t.s)) + "s"
    else if t.m > 0 then NatToString(t.m) + "m" + Pad2(NatToString(t.s)) + "s"
    else NatToString(t.s) + "s"
  }

  // ---------------------------------------------------------------------
  // Reading the format back
  // ---------------------------------------------------------------------

  /** The length of the run of digits at the start of `t`. */
  function DigitRun(t: string): (k: nat)
    ensures k <= |t| && AllDigits(t[..k])
    ensures k < |t| ==> !IsDigit(t[k])
    decreases |t|
  {
    if t != [] && IsDigit(t[0]) then
      var k := DigitRun(t[1..]) + 1;
      assert t[..k] == [t[0]] + t[1..][..k - 1];
      k
    else 0
  }

  /** A number followed by its unit letter. */
  datatype Field = Field(value: nat, unit: char)

  /** Cuts `t` into runs of digits each followed by one non-digit. */
  function Fields(t: string): Option<seq<Field>>
    decreases |t|
  {
    if t == [] then Some([])
    else
      var k := DigitRun(t);
      if k == 0 || k == |t| then None
      else match Fields(t[k + 1..])
        case None => None
        case Some(fs) => Some([Field(DigitsValue(t[..k]), t[k])] + fs)
  }

  /** Reads "⟨h⟩h⟨m⟩m⟨s⟩s", "⟨m⟩m⟨s⟩s" or "⟨s⟩s" as a number of seconds. */
  function ReadTempo(t: string): Option<nat>
  {
    match Fields(t)
    case None => None
    case Some(fs) => Combine(fs)
  }

  function Combine(fs: seq<Field>): Option<nat>
  {
    if |fs| == 3 && fs[0].unit == 'h' && fs[1].unit == 'm' && fs[2].unit == 's' then
      Some(fs[0].value * 3600 + fs[1].value * 60 + fs[2].value)
    else if |fs| == 2 && fs[0].unit == 'm' && fs[1].unit == 's' then
      Some(fs[0].value * 60 + fs[1].value)
    else if |fs| == 1 && fs[0].unit == 's' then
      Some(fs[0].value)
    else None
  }

  lemma {:induction false} DigitRunOf(d: string, rest: string)
    requires AllDigits(d) && rest != [] && !IsDigit(rest[0])
    ensures DigitRun(d + rest) == |d|
    decreases |d|
  {
    var t := d + rest;
    if d != [] {
      assert t[0] == d[0] && IsDigit(t[0]);
      assert t[1..] == d[1..] + rest;
      DigitRunOf(d[1..], rest);
      assert DigitRun(t) == DigitRun(t[1..]) + 1;
    } else {
      assert t == rest && !IsDigit(t[0]);
    }
  }

  lemma FieldsCons(d: string, u: char, rest: string, fs: seq<Field>)
    requires AllDigits(d) && d != [] && !IsDigit(u)
    requires Fields(rest) == Some(fs)
    ensures Fields(d + [u] + rest) == Some([Field(DigitsValue(d), u)] + fs)
  {
    var t := d + [u] + rest;
    assert t == d + ([u] + rest);
    DigitRunOf(d, [u] + rest);
    assert t[..|d|] == d;
    assert t[|d|] == u;
    assert t[|d| + 1..] == rest;
  }

  /** A padded rendering is still digits and still reads as the number. */
  lemma Padded(x: nat)
    ensures Pad2(NatToString(x)) != [] && AllDigits(Pad2(NatToString(x)))
    ensures DigitsValue(Pad2(NatToString(x))) == x
  {
    var d := NatToString(x);
    NatToStringRoundTrip(x);
    if |d| == 1 {
      var p := Pad2(d);
      assert p == ['0', d[0]];
      assert p[..1] == ['0'];
      assert p[..1][..0] == [];
      assert d[..0] == [];
    }
  }

  /** Reading the formatted duration gives the duration back, so no two
      durations are shown alike. */
  lemma TempoRoundTrip(secs: nat)
    ensures ReadTempo(TempoFormatado(secs)) == Some(secs)
  {
    var ps := PiecesOf(secs);
    PiecesOfFormat(secs);
    PiecesOfValue(secs);
    ReadRendered(TempoFormatado(secs), ps);
  }

  /** The pieces the format is made of. */
  function PiecesOf(secs: nat): seq<Piece>
  {
    PiecesOfHms(Split(secs))
  }

  function PiecesOfHms(t: Hms): seq<Piece>
  {
    if t.h > 0 then [Piece(NatToString(t.h), 'h')] + [Piece(Pad2(NatToString(t.m)), 'm'), Piece(Pad2(NatToString(t.s)), 's')]
    else if t.m > 0 then [Piece(NatToString(t.m), 'm'), Piece(Pad2(NatToString(t.s)), 's')]
    else [Piece(NatToString(t.s), 's')]
  }

  lemma PiecesOfFormat(secs: nat)
    ensures TempoFormatado(secs) == Render(PiecesOf(secs))
  {
    var t := Split(secs);
    RenderedShapes(NatToString(t.h), Pad2(NatToString(t.m)), Pad2(NatToString(t.s)));
    RenderedShapes(NatToString(t.h), NatToString(t.m), NatToString(t.s));
  }

  lemma PiecesOfValue(secs: nat)
    ensures ValidPieces(PiecesOf(secs))
    ensures Combine(FieldsOf(PiecesOf(secs))) == Some(secs)
  {
    HmsValue(Split(secs));
  }

  lemma HmsValue(t: Hms)
    ensures ValidPieces(PiecesOfHms(t))
    ensures Combine(FieldsOf(PiecesOfHms(t))) == Some(t.h * 3600 + t.m * 60 + t.s)
  {
    if t.h > 0 {
      HoursValue(t);
    } else if t.m > 0 {
      MinutesValue(t);
    } else {
      SecondsValue(t.s);
    }
  }

  lemma SecondsValue(s: nat)
    ensures ValidPieces([Piece(NatToString(s), 's')])
    ensures Combine(FieldsOf([Piece(NatToString(s), 's')])) == Some(s)
  {
    NatToStringRoundTrip(s);
    ValuesOne(NatToString(s));
  }

  lemma HoursValue(t: Hms)
    requires t.h > 0
    ensures var ps := [Piece(NatToString(t.h), 'h')] + [Piece(Pad2(NatToString(t.m)), 'm'), Piece(Pad2(NatToString(t.s)), 's')];
            ValidPieces(ps) && Combine(FieldsOf(ps)) == Some(t.h * 3600 + t.m * 60 + t.s)
  {
    NatToStringRoundTrip(t.h);
    Padded(t.m);
    Padded(t.s);
    ThreeValues(NatToString(t.h), Pad2(NatToString(t.m)), Pad2(NatToString(t.s)), t.h, t.m, t.s);
  }

  lemma ThreeValues(H: string, M: string, S: string, h: nat, m: nat, s: nat)
    requires Number(H) && Number(M) && Number(S)
    requires DigitsValue(H) == h && DigitsValue(M) == m && DigitsValue(S) == s
    ensures var ps := [Piece(H, 'h')] + [Piece(M, 'm'), Piece(S, 's')];
            ValidPieces(ps) && Combine(FieldsOf(ps)) == Some(h * 3600 + m * 60 + s)
  {
    ValuesThree(H, M, S);
    assert [Field(h, 'h')] + [Field(m, 'm'), Field(s, 's')] == [Field(h, 'h'), Field(m, 'm'), Field(s, 's')];
    CombineThree(h, m, s);
  }

  lemma MinutesValue(t: Hms)
    ensures var ps := [Piece(NatToString(t.m), 'm'), Piece(Pad2(NatToString(t.s)), 's')];
            ValidPieces(ps) && Combine(FieldsOf(ps)) == Some(t.m * 60 + t.s)
  {
    NatToStringRoundTrip(t.m);
    Padded(t.s);
    ValuesTwo(NatToString(t.m), Pad2(NatToString(t.s)));
    CombineTwo(t.m, t.s);
  }

  lemma CombineThree(h: nat, m: nat, s: nat)
    ensures Combine([Field(h, 'h'), Field(m, 'm'), Field(s, 's')]) == Some(h * 3600 + m * 60 + s)
  {
  }

  lemma CombineTwo(m: nat, s: nat)
    ensures Combine([Field(m, 'm'), Field(s, 's')]) == Some(m * 60 + s)
  {
  }

  lemma ValuesThree(H: string, M: string, S: string)
    requires Number(H) && Number(M) && Number(S)
    ensures ValidPieces([Piece(H, 'h')] + [Piece(M, 'm'), Piece(S, 's')])
    ensures FieldsOf([Piece(H, 'h')] + [Piece(M, 'm'), Piece(S, 's')]) ==
              [Field(DigitsValue(H), 'h')] + [Field(DigitsValue(M), 'm'), Field(DigitsValue(S), 's')]
  {
    ValuesTwo(M, S);
    FieldsOfCons(Piece(H, 'h'), [Piece(M, 'm'), Piece(S, 's')]);
  }

  lemma FieldsOfCons(p: Piece, rest: seq<Piece>)
    requires Number(p.digits) && !IsDigit(p.unit) && ValidPieces(rest)
    ensures ValidPieces([p] + rest)
    ensures FieldsOf([p] + rest) == [Field(DigitsValue(p.digits), p.unit)] + FieldsOf(rest)
  {
    assert ([p] + rest)[1..] == rest;
  }

  lemma ValuesTwo(M: string, S: string)
    requires Number(M) && Number(S)
    ensures ValidPieces([Piece(M, 'm'), Piece(S, 's')])
    ensures FieldsOf([Piece(M, 'm'), Piece(S, 's')]) == [Field(DigitsValue(M), 'm'), Field(DigitsValue(S), 's')]
  {
    var ps := [Piece(M, 'm'), Piece(S, 's')];
    assert ValidPieces(ps);
    assert ps[1..] == [Piece(S, 's')];
    ValuesOne(S);
  }

  lemma ValuesOne(S: string)
    requires Number(S)
    ensures ValidPieces([Piece(S, 's')])
    ensures FieldsOf([Piece(S, 's')]) == [Field(DigitsValue(S), 's')]
  {
    var ps := [Piece(S, 's')];
    assert ValidPieces(ps);
    assert ps[1..] == [];
  }

  predicate Number(d: string)
  {
    d != [] && AllDigits(d)
  }

  /** Digits followed by a unit letter, the pieces of the format. */
  datatype Piece = Piece(digits: string, unit: char)

  function Render(ps: seq<Piece>): string
    decreases |ps|
  {
    if ps == [] then [] else ps[0].digits + [ps[0].unit] + Render(ps[1..])
  }

  predicate ValidPieces(ps: seq<Piece>)
  {
    forall i :: 0 <= i < |ps| ==> Number(ps[i].digits) && !IsDigit(ps[i].unit)
  }

  function FieldsOf(ps: seq<Piece>): (fs: seq<Field>)
    requires ValidPieces(ps)
    ensures |fs| == |ps|
    decreases |ps|
  {
    if ps == [] then [] else [Field(DigitsValue(ps[0].digits), ps[0].unit)] + FieldsOf(ps[1..])
  }

  lemma {:induction false} FieldsRender(ps: seq<Piece>)
    requires ValidPieces(ps)
    ensures Fields(Render(ps)) == Some(FieldsOf(ps))
    decreases |ps|
  {
    if ps == [] {
      assert Render(ps) == [];
    } else {
      FieldsRender(ps[1..]);
      FieldsCons(ps[0].digits, ps[0].unit, Render(ps[1..]), FieldsOf(ps[1..]));
    }
  }

  lemma ReadRendered(t: string, ps: seq<Piece>)
    requires ValidPieces(ps) && t == Render(ps)
    ensures ReadTempo(t) == Combine(FieldsOf(ps))
  {
    FieldsRender(ps);
  }

  lemma RenderedShapes(A: string, B: string, C: string)
    ensures Render([Piece(A, 'h'), Piece(B, 'm'), Piece(C, 's')]) == A + "h" + B + "m" + C + "s"
    ensures Render([Piece(B, 'm'), Piece(C, 's')]) == B + "m" + C + "s"
    ensures Render([Piece(C, 's')]) == C + "s"
  {
    var p3 := [Piece(A, 'h'), Piece(B, 'm'), Piece(C, 's')];
    assert p3[1..] == [Piece(B, 'm'), Piece(C, 's')];
    assert p3[1..][1..] == [Piece(C, 's')];
    assert [Piece(C, 's')][1..] == [];
    var r1 := C + ['s'] + [];
    assert Render([Piece(C, 's')]) == r1 == C + "s";
    var r2 := B + ['m'] + r1;
    assert Render([Piece(B, 'm'), Piece(C, 's')]) == r2 == B + "m" + C + "s";
    var r3 := A + ['h'] + r2;
    assert Render(p3) == r3 == A + "h" + B + "m" + C + "s";
  }

  /** The three shapes, by the size of the duration. */
  lemma TempoShape(secs: nat)
    ensures secs < 60 ==> TempoFormatado(secs) == NatToString(secs) + "s"
    ensures 60 <= secs < 3600 ==>
              TempoFormatado(secs) == NatToString(secs / 60) + "m" + Pad2(NatToString(secs % 60)) + "s"
    ensures secs >= 3600 ==>
              TempoFormatado(secs) == NatToString(secs / 3600) + "h" + Pad2(NatToString(secs % 3600 / 60)) + "m"
                                      + Pad2(NatToString(secs % 60)) + "s"
  {
    if secs < 60 {
      ShapeSeconds(secs);
    } else if secs < 3600 {
      ShapeMinutes(secs);
    } else {
      ShapeHours(secs);
    }
  }

  lemma ShapeSeconds(secs: nat)
    requires secs < 60
    ensures TempoFormatado(secs) == NatToString(secs) + "s"
  {
    SplitShape(secs);
  }

  lemma ShapeMinutes(secs: nat)
    requires 60 <= secs < 3600
    ensures TempoFormatado(secs) == NatToString(secs / 60) + "m" + Pad2(NatToString(secs % 60)) + "s"
  {
    SplitShape(secs);
  }

  lemma ShapeHours(secs: nat)
    requires secs >= 3600
    ensures TempoFormatado(secs) == NatToString(secs / 3600) + "h" + Pad2(NatToString(secs % 3600 / 60)) + "m"
                                    + Pad2(NatToString(secs % 60)) + "s"
  {
    SplitShape(secs);
  }

  /** Which of the three fields `Split` fills, by the size of the input. */
  lemma SplitShape(secs: nat)
    ensures secs < 60 ==> Split(secs) == Hms(0, 0, secs)
    ensures 60 <= secs < 3600 ==> Split(secs) == Hms(0, secs / 60, secs % 60)
    ensures secs >= 3600 ==> Split(secs) == Hms(secs / 3600, secs % 3600 / 60, secs % 60) && secs / 3600 > 0
  {
    var t := Split(secs);
    if secs < 3600 {
      assert t.h == 0;
      if secs < 60 {
        assert t.m == 0;
      } else {
        assert secs / 60 == t.m by { Arith.DivFromBounds(secs, 60, t.m); }
      }
    } else {
      assert t.h > 0;
      assert secs / 3600 == t.h by { Arith.DivFromBounds(secs, 3600, t.h); }
    }
  }

  /** The empty column shows "0s", which is also how zero seconds look. */
  lemma ZeroSeconds()
    ensures TempoFormatado(0) == "0s"
  {
    assert NatToString(0) == "0";
  }

  /** 3725 s is one hour, two minutes and five seconds. */
  lemma HourExample()
    ensures TempoFormatado(3725) == "1h02m05s"
  {
    assert Split(3725) == Hms(1, 2, 5);
    assert NatToString(1) == "1";
    assert NatToString(2) == "2";
    assert NatToString(5) == "5";
  }
}
