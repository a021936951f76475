/**
 * Reading a preview back. The preview text of `formatEquation` determines
 * the terms it was written from: each term's sign, its magnitude text and
 * its variable number can be read off the text again, in order.
 */
module EquationReading {

  import opened Optional
  import opened Numbers
  import opened Decimal
  import opened Equation

  /** What one term of a preview says: whether it is subtracted, its magnitude text, its variable number. */
  datatype Shown = Shown(negative: bool, magnitude: string, variable: nat)

  /**
   * A number-to-text conversion that behaves like JavaScript's on positive
   * finite numbers ("3", "0.5", "1e+21"): never empty, starts with a digit,
   * never contains an 'x'.
   */
  ghost predicate NumeralLike(show: real -> string) {
    forall m: real :: m > 0.0 ==> |show(m)| > 0 && IsDigit(show(m)[0]) && 'x' !in show(m)
  }

  /** Position of the first 'x', or the length when there is none. */
  function UntilX(s: string): (k: nat)
    ensures k <= |s|
    ensures forall i :: 0 <= i < k ==> s[i] != 'x'
    ensures k < |s| ==> s[k] == 'x'
    decreases |s|
  {
    if |s| == 0 || s[0] == 'x' then 0 else 1 + UntilX(s[1..])
  }

  /** Length of the longest run of digits at the start. */
  function DigitRun(s: string): (k: nat)
    ensures k <= |s|
    ensures forall i :: 0 <= i < k ==> IsDigit(s[i])
    ensures k < |s| ==> !IsDigit(s[k])
    decreases |s|
  {
    if |s| == 0 || !IsDigit(s[0]) then 0 else 1 + DigitRun(s[1..])
  }

  /** A term after its sign: the magnitude text up to the 'x', and the variable number behind it. */
  datatype Body = Body(magnitude: string, variable: nat, rest: string)

  /**
   * Reads a magnitude up to the first 'x' and the digits of the variable
   * number after it; `None` when there is no 'x' or no digit after it.
   */
  function ReadBody(s: string): (b: Option<Body>)
    ensures b.Some? ==> |b.value.rest| < |s|
  {
    var m := UntilX(s);
    if m == |s| then None
    else
      var afterX := s[m + 1..];
      var d := DigitRun(afterX);
      if d == 0 then None
      else Some(Body(s[..m], Value(afterX[..d]), afterX[d..]))
  }

  /**
   * Reads the sign in front of a term: an optional "-" before the first
   * term, " + " or " - " before a later one. Gives whether the term is
   * subtracted and the length of the sign text.
   */
  function ReadSign(s: string, first: bool): (r: Option<(bool, nat)>)
    ensures r.Some? ==> r.value.1 <= |s|
  {
    if first then Some(if |s| > 0 && s[0] == '-' then (true, 1) else (false, 0))
    else if |s| >= 3 && s[..3] == " + " then Some((false, 3))
    else if |s| >= 3 && s[..3] == " - " then Some((true, 3))
    else None
  }

  /** Reads consecutive terms, each a sign followed by a body. `None` when the text is not of that form. */
  function ReadTerms(s: string, first: bool): Option<seq<Shown>>
    decreases |s|
  {
    if |s| == 0 then Some([])
    else
      match ReadSign(s, first)
      case None => None
      case Some((negative, signLength)) =>
        match ReadBody(s[signLength..])
        case None => None
        case Some(b) =>
          match ReadTerms(b.rest, false)
          case None => None
          case Some(more) => Some([Shown(negative, b.magnitude, b.variable)] + more)
  }

  /** Reads a whole preview: the objective behind "Z = ", a constraint side possibly as the bare "0". */
  function Read(r: string, isObjective: bool): Option<seq<Shown>> {
    if isObjective then
      if |r| >= 4 && r[..4] == "Z = " then ReadTerms(r[4..], true) else None
    else if r == "0" then Some([])
    else ReadTerms(r, true)
  }

  /**
   * What a term should say: subtracted exactly when its coefficient is
   * negative; the magnitude |coef|, left out exactly when it is one outside
   * the objective; the variable number one more than its position.
   */
  function ShownOf(t: Term, isObjective: bool, show: real -> string): Shown {
    var m := Abs(t.value);
    Shown(t.value < 0.0, if m == 1.0 && !isObjective then "" else show(m), t.index + 1)
  }

  function ShownAll(ts: seq<Term>, isObjective: bool, show: real -> string): (ss: seq<Shown>)
    decreases |ts|
  {
    if |ts| == 0 then [] else [ShownOf(ts[0], isObjective, show)] + ShownAll(ts[1..], isObjective, show)
  }

  /** The terms a preview should show, one per non-zero numeric entry, in order of position. */
  function Intended(coefs: seq<Coef>, isObjective: bool, show: real -> string): seq<Shown> {
    ShownAll(Terms(coefs), isObjective, show)
  }

  predicate NonZeroTerms(ts: seq<Term>) {
    forall j :: 0 <= j < |ts| ==> ts[j].value != 0.0
  }

  lemma UntilXAt(a: string, b: string)
    requires 'x' !in a
    ensures UntilX(a + "x" + b) == |a|
  {
    var s := a + "x" + b;
    assert s[|a|] == 'x';
    assert forall i :: 0 <= i < |a| ==> s[i] == a[i];
  }

  lemma DigitRunAt(d: string, rest: string)
    requires AllDigits(d)
    requires rest == "" || rest[0] == ' '
    ensures DigitRun(d + rest) == |d|
  {
    var s := d + rest;
    assert forall i :: 0 <= i < |d| ==> s[i] == d[i];
    assert s[..|d|] == d;
    assert |rest| > 0 ==> s[|d|] == rest[0];
  }

  lemma ReadBodyAt(mag: string, n: nat, rest: string)
    requires 'x' !in mag
    requires rest == "" || rest[0] == ' '
    ensures ReadBody(mag + "x" + NatText(n) + rest) == Some(Body(mag, n, rest))
  {
    var name := NatText(n);
    var s := mag + "x" + (name + rest);
    assert mag + "x" + name + rest == s;
    UntilXAt(mag, name + rest);
    assert s[|mag| + 1..] == name + rest;
    assert s[..|mag|] == mag;
    DigitRunAt(name, rest);
    assert (name + rest)[..|name|] == name;
    assert (name + rest)[|name|..] == rest;
    ValueOfNatText(n);
  }

  lemma ReadSignAt(first: bool, v: real, body: string)
    requires v != 0.0
    requires |body| > 0 && (IsDigit(body[0]) || body[0] == 'x')
    ensures ReadSign(Sign(first, v) + body, first) == Some((v < 0.0, |Sign(first, v)|))
  {
    var s := Sign(first, v) + body;
    if first && v > 0.0 {
      assert s[0] == body[0];
    } else if !first {
      assert s[..3] == Sign(first, v);
    }
  }

  /** One step of `ReadTerms`: a sign, a body, then the remaining terms. */
  lemma ReadTermsStep(s: string, first: bool, negative: bool, signLength: nat, b: Body)
    requires |s| > 0
    requires ReadSign(s, first) == Some((negative, signLength))
    requires ReadBody(s[signLength..]) == Some(b)
    ensures ReadTerms(s, first)
         == match ReadTerms(b.rest, false)
            case None => None
            case Some(more) => Some([Shown(negative, b.magnitude, b.variable)] + more)
  {
  }

  /** The magnitude text of a term holds no 'x' and, when present, starts with a digit. */
  predicate MagnitudeReadable(t: Term, isObjective: bool, show: real -> string) {
    var mag := Magnitude(t.value, isObjective, show);
    'x' !in mag && (|mag| > 0 ==> IsDigit(mag[0]))
  }

  lemma MagnitudeFacts(t: Term, isObjective: bool, show: real -> string)
    requires NumeralLike(show)
    requires t.value != 0.0
    ensures MagnitudeReadable(t, isObjective, show)
    ensures ShownOf(t, isObjective, show) == Shown(t.value < 0.0, Magnitude(t.value, isObjective, show), t.index + 1)
  {
    var m := Abs(t.value);
    assert m > 0.0;
    assert |show(m)| > 0 && IsDigit(show(m)[0]) && 'x' !in show(m);
  }

  /** The sign and the body of a term written by `TermText` read back as written. */
  lemma ReadTermParts(first: bool, t: Term, rest: string, isObjective: bool, show: real -> string)
    requires MagnitudeReadable(t, isObjective, show)
    requires t.value != 0.0
    requires rest == "" || rest[0] == ' '
    ensures var s := TermText(first, t, isObjective, show) + rest;
      var k := |Sign(first, t.value)|;
      && k <= |s|
      && ReadSign(s, first) == Some((t.value < 0.0, k))
      && ReadBody(s[k..]) == Some(Body(Magnitude(t.value, isObjective, show), t.index + 1, rest))
  {
    var sign := Sign(first, t.value);
    var mag := Magnitude(t.value, isObjective, show);
    var body := mag + "x" + NatText(t.index + 1) + rest;
    var s := TermText(first, t, isObjective, show) + rest;
    assert s == sign + body;
    assert |mag| > 0 ==> body[0] == mag[0];
    assert |mag| == 0 ==> body[0] == 'x';
    ReadSignAt(first, t.value, body);
    assert s[|sign|..] == body;
    ReadBodyAt(mag, t.index + 1, rest);
  }

  /** Reading one term written by `TermText` gives its sign, magnitude text and variable, and reading continues behind it. */
  lemma ReadOne(first: bool, t: Term, rest: string, isObjective: bool, show: real -> string)
    requires MagnitudeReadable(t, isObjective, show)
    requires t.value != 0.0
    requires rest == "" || rest[0] == ' '
    ensures ReadTerms(TermText(first, t, isObjective, show) + rest, first)
         == match ReadTerms(rest, false)
            case None => None
            case Some(more) =>
              Some([Shown(t.value < 0.0, Magnitude(t.value, isObjective, show), t.index + 1)] + more)
  {
    ReadTermParts(first, t, rest, isObjective, show);
    var s := TermText(first, t, isObjective, show) + rest;
    var mag := Magnitude(t.value, isObjective, show);
    ReadTermsStep(s, first, t.value < 0.0, |Sign(first, t.value)|, Body(mag, t.index + 1, rest));
  }

  lemma {:induction false} ReadContinue(ts: seq<Term>, isObjective: bool, show: real -> string)
    requires NumeralLike(show)
    requires NonZeroTerms(ts)
    ensures ReadTerms(Continue(ts, isObjective, show), false) == Some(ShownAll(ts, isObjective, show))
    ensures Continue(ts, isObjective, show) == "" || Continue(ts, isObjective, show)[0] == ' '
    decreases |ts|
  {
    if |ts| > 0 {
      var rest := Continue(ts[1..], isObjective, show);
      ReadContinue(ts[1..], isObjective, show);
      MagnitudeFacts(ts[0], isObjective, show);
      ReadOne(false, ts[0], rest, isObjective, show);
      assert TermText(false, ts[0], isObjective, show)[0] == ' ';
    }
  }

  lemma ReadRender(ts: seq<Term>, isObjective: bool, show: real -> string)
    requires NumeralLike(show)
    requires NonZeroTerms(ts)
    ensures ReadTerms(Render(ts, isObjective, show), true) == Some(ShownAll(ts, isObjective, show))
  {
    if |ts| > 0 {
      ReadContinue(ts[1..], isObjective, show);
      MagnitudeFacts(ts[0], isObjective, show);
      ReadOne(true, ts[0], Continue(ts[1..], isObjective, show), isObjective, show);
    }
  }

  /**
   * The preview can be read back: reading the text of `formatEquation`
   * gives, in order, one term per non-zero numeric entry with its sign, its
   * magnitude text (elided exactly for a one outside the objective) and its
   * 1-based variable number.
   */
  lemma ReadExpression(coefs: seq<Coef>, isObjective: bool, show: real -> string)
    requires NumeralLike(show)
    ensures Read(Expression(coefs, isObjective, show), isObjective) == Some(Intended(coefs, isObjective, show))
  {
    var ts := Terms(coefs);
    TermsSound(coefs);
    assert NonZeroTerms(ts);
    ReadRender(ts, isObjective, show);
    var text := Render(ts, isObjective, show);
    assert Intended(coefs, isObjective, show) == ShownAll(ts, isObjective, show);
    if isObjective {
      var r := "Z = " + text;
      assert Expression(coefs, isObjective, show) == r;
      assert r[..4] == "Z = " && r[4..] == text;
    } else if |ts| > 0 {
      assert Expression(coefs, isObjective, show) == text;
      RenderNonEmpty(ts, false, show);
      assert 'x' !in "0";
    }
  }
}
