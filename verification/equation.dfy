/**
 * `formatEquation` of src/app/page.tsx: the preview text of a linear
 * expression, such as `Z = 3x1 - 1x2 + 5x3` for an objective or `3x1 - x2 + 5x3`
 * for the left-hand side of a constraint.
 *
 * The conversion of a magnitude to text (`equation += absCoef`) is
 * JavaScript's number-to-string conversion; it is a parameter `show` here.
 */
module Equation {

  import opened Numbers
  import opened Decimal

  /** A coefficient that the expression shows: its 0-based position and its value. */
  datatype Term = Term(index: nat, value: real)

  /** The terms of an expression: the entries that are non-zero numbers, with their positions. */
  function Terms(coefs: seq<Coef>): seq<Term>
    decreases |coefs|
  {
    if |coefs| == 0 then []
    else
      var n := |coefs| - 1;
      Terms(coefs[..n]) + (if Emits(coefs[n]) then [Term(n, coefs[n].value)] else [])
  }

  lemma TermsPrefix(coefs: seq<Coef>, n: nat)
    requires n == |coefs| - 1
    ensures Terms(coefs) == Terms(coefs[..n]) + (if Emits(coefs[n]) then [Term(n, coefs[n].value)] else [])
  {
  }

  /** Every listed term is an entry that is a non-zero number, at its own position. */
  lemma {:induction false} TermsSound(coefs: seq<Coef>)
    ensures forall j :: 0 <= j < |Terms(coefs)| ==>
      && Terms(coefs)[j].index < |coefs|
      && Emits(coefs[Terms(coefs)[j].index])
      && coefs[Terms(coefs)[j].index].value == Terms(coefs)[j].value
    decreases |coefs|
  {
    if |coefs| > 0 {
      var n := |coefs| - 1;
      TermsPrefix(coefs, n);
      TermsSound(coefs[..n]);
    }
  }

  /** Terms are listed in strictly increasing order of position. */
  lemma {:induction false} TermsOrdered(coefs: seq<Coef>)
    ensures forall j, k :: 0 <= j < k < |Terms(coefs)| ==> Terms(coefs)[j].index < Terms(coefs)[k].index
    decreases |coefs|
  {
    if |coefs| > 0 {
      var n := |coefs| - 1;
      TermsPrefix(coefs, n);
      TermsOrdered(coefs[..n]);
      TermsSound(coefs[..n]);
    }
  }

  /** Every entry that is a non-zero number is listed. */
  lemma {:induction false} TermsComplete(coefs: seq<Coef>)
    ensures forall i :: 0 <= i < |coefs| && Emits(coefs[i]) ==>
      exists j :: 0 <= j < |Terms(coefs)| && Terms(coefs)[j].index == i
    decreases |coefs|
  {
    if |coefs| > 0 {
      var n := |coefs| - 1;
      var rest := Terms(coefs[..n]);
      var ts := Terms(coefs);
      TermsPrefix(coefs, n);
      TermsComplete(coefs[..n]);
      forall i | 0 <= i < |coefs| && Emits(coefs[i])
        ensures exists j :: 0 <= j < |ts| && ts[j].index == i
      {
        if i == n {
          assert ts[|rest|].index == n;
        } else {
          assert coefs[..n][i] == coefs[i];
          var j :| 0 <= j < |rest| && rest[j].index == i;
          assert ts[j].index == i;
        }
      }
    }
  }

  /** Text in front of the first term. */
  function Prefix(isObjective: bool): string {
    if isObjective then "Z = " else ""
  }

  /** The sign text of a term: a separator between terms, a bare minus on a negative first term. */
  function Sign(first: bool, v: real): string {
    if first then (if v < 0.0 then "-" else "")
    else if v > 0.0 then " + " else " - "
  }

  /** The magnitude text of a term; a magnitude of one is left implicit outside the objective. */
  function Magnitude(v: real, isObjective: bool, show: real -> string): string {
    var m := Abs(v);
    if m != 1.0 || isObjective then show(m) else ""
  }

  /** The text of one term: sign, magnitude, and the 1-based variable name. */
  function TermText(first: bool, t: Term, isObjective: bool, show: real -> string): string {
    Sign(first, t.value) + Magnitude(t.value, isObjective, show) + "x" + NatText(t.index + 1)
  }

  /** The terms written one after the other, the first one without a separator. */
  function Render(ts: seq<Term>, isObjective: bool, show: real -> string): string {
    if |ts| == 0 then ""
    else TermText(true, ts[0], isObjective, show) + Continue(ts[1..], isObjective, show)
  }

  /** Terms that follow an earlier term, each behind its separator. */
  function Continue(ts: seq<Term>, isObjective: bool, show: real -> string): string
    decreases |ts|
  {
    if |ts| == 0 then ""
    else TermText(false, ts[0], isObjective, show) + Continue(ts[1..], isObjective, show)
  }

  /**
   * What the preview shows for a coefficient vector, stated term by term:
   * the prefix, then the terms; a constraint side without terms reads "0".
   */
  function Expression(coefs: seq<Coef>, isObjective: bool, show: real -> string): string {
    var ts := Terms(coefs);
    if !isObjective && |ts| == 0 then "0" else Prefix(isObjective) + Render(ts, isObjective, show)
  }

  lemma TermsSnoc(coefs: seq<Coef>, i: nat)
    requires i < |coefs|
    ensures Terms(coefs[..i + 1])
         == Terms(coefs[..i]) + (if Emits(coefs[i]) then [Term(i, coefs[i].value)] else [])
  {
    assert coefs[..i + 1][..i] == coefs[..i];
  }

  lemma {:induction false} ContinueSnoc(ts: seq<Term>, t: Term, isObjective: bool, show: real -> string)
    ensures Continue(ts + [t], isObjective, show)
         == Continue(ts, isObjective, show) + TermText(false, t, isObjective, show)
    decreases |ts|
  {
    if |ts| > 0 {
      assert (ts + [t])[1..] == ts[1..] + [t];
      ContinueSnoc(ts[1..], t, isObjective, show);
    }
  }

  lemma RenderSnoc(ts: seq<Term>, t: Term, isObjective: bool, show: real -> string)
    ensures Render(ts + [t], isObjective, show)
         == Render(ts, isObjective, show) + TermText(|ts| == 0, t, isObjective, show)
  {
    if |ts| > 0 {
      assert (ts + [t])[1..] == ts[1..] + [t];
      ContinueSnoc(ts[1..], t, isObjective, show);
    } else {
      assert (ts + [t])[1..] == [];
    }
  }

  lemma RenderNonEmpty(ts: seq<Term>, isObjective: bool, show: real -> string)
    requires |ts| > 0
    ensures 'x' in Render(ts, isObjective, show)
  {
    var s := TermText(true, ts[0], isObjective, show);
    var k := |Sign(true, ts[0].value) + Magnitude(ts[0].value, isObjective, show)|;
    assert s[k] == 'x';
    assert Render(ts, isObjective, show)[k] == 'x';
  }

  /** One written term extends the text by exactly the next term of `Render`. */
  lemma AppendTerm(ts: seq<Term>, t: Term, hasTerms: bool, sep: string, mag: string,
                   isObjective: bool, show: real -> string)
    requires hasTerms <==> |ts| > 0
    requires sep == Sign(!hasTerms, t.value)
    requires mag == Magnitude(t.value, isObjective, show)
    ensures Prefix(isObjective) + Render(ts, isObjective, show) + sep + mag + "x" + NatText(t.index + 1)
         == Prefix(isObjective) + Render(ts + [t], isObjective, show)
  {
    RenderSnoc(ts, t, isObjective, show);
    var term := TermText(!hasTerms, t, isObjective, show);
    assert term == sep + mag + "x" + NatText(t.index + 1);
    var before := Render(ts, isObjective, show);
    assert Render(ts + [t], isObjective, show) == before + term;
    Regroup(Prefix(isObjective), before, term, sep, mag, NatText(t.index + 1));
  }

  /**
   * Regrouping a concatenation, stated over plain strings: proving it where
   * `Render` and `TermText` are in scope costs the solver far more.
   */
  lemma Regroup(p: string, before: string, term: string, sep: string, mag: string, name: string)
    requires term == sep + mag + "x" + name
    ensures p + before + sep + mag + "x" + name == p + (before + term)
  {
  }

  /**
   * The loop of `formatEquation`: one pass over the coefficients, a flag
   * that records whether a term was written, and the "0" fallback for an
   * empty result. It writes exactly the term-by-term `Expression`.
   */
  method FormatEquation(coefs: seq<Coef>, isObjective: bool, show: real -> string) returns (r: string)
    ensures r == Expression(coefs, isObjective, show)
  {
    var equation := if isObjective then "Z = " else "";
    var hasTerms := false;
    var index := 0;
    assert coefs[..index] == [];
    assert Terms(coefs[..index]) == [];
    while index < |coefs|
      invariant 0 <= index <= |coefs|
      invariant hasTerms <==> |Terms(coefs[..index])| > 0
      invariant equation == Prefix(isObjective) + Render(Terms(coefs[..index]), isObjective, show)
    {
      var coef := coefs[index];
      ghost var before := Terms(coefs[..index]);
      TermsSnoc(coefs, index);
      if !(coef == Num(0.0) || coef.Null? || coef.NaN?) {
        var v := coef.value;
        assert Emits(coef);
        var sep := "";
        if hasTerms && v > 0.0 {
          sep := " + ";
        } else if hasTerms && v < 0.0 {
          sep := " - ";
        } else if v < 0.0 {
          sep := "-";
        }
        var absCoef := Abs(v);
        var mag := "";
        if absCoef != 1.0 || isObjective {
          mag := show(absCoef);
        }
        AppendTerm(before, Term(index, v), hasTerms, sep, mag, isObjective, show);
        equation := equation + sep + mag + "x" + NatText(index + 1);
        hasTerms := true;
        assert Terms(coefs[..index + 1]) == before + [Term(index, v)];
      } else {
        assert !Emits(coef);
        assert Terms(coefs[..index + 1]) == before;
      }
      index := index + 1;
    }
    assert coefs[..index] == coefs;
    if |Terms(coefs)| > 0 {
      RenderNonEmpty(Terms(coefs), isObjective, show);
    }
    r := if equation == "" then "0" else equation;
  }

  /** A side without terms, and only such a side, previews as "0". */
  lemma ConstraintSideZero(coefs: seq<Coef>, show: real -> string)
    ensures Expression(coefs, false, show) == "0"
        <==> forall i :: 0 <= i < |coefs| ==> !Emits(coefs[i])
  {
    var ts := Terms(coefs);
    TermsSound(coefs);
    TermsComplete(coefs);
    if |ts| > 0 {
      RenderNonEmpty(ts, false, show);
      assert 'x' !in "0";
      assert Emits(coefs[ts[0].index]);
    }
  }

  /**
   * An objective always previews behind "Z = " and so never as "0"; it is
   * exactly "Z = " when no entry is a non-zero number.
   */
  lemma ObjectiveHeader(coefs: seq<Coef>, show: real -> string)
    ensures var r := Expression(coefs, true, show);
      && |r| >= 4 && r[..4] == "Z = " && r != "0"
      && (r == "Z = " <==> forall i :: 0 <= i < |coefs| ==> !Emits(coefs[i]))
  {
    var ts := Terms(coefs);
    TermsSound(coefs);
    TermsComplete(coefs);
    var r := Expression(coefs, true, show);
    assert r == "Z = " + Render(ts, true, show);
    if |ts| > 0 {
      RenderNonEmpty(ts, true, show);
      assert |Render(ts, true, show)| > 0;
      assert Emits(coefs[ts[0].index]);
    }
  }
}
