# Linear-programming form: a verified model

The repository is a web form that collects a linear-programming problem —
the optimisation sense, the objective coefficients, a list of `<=`
constraints and, for each constraint, a requested variation of its
right-hand side — shows a textual preview of the equations, and posts the
problem to a remote simplex solver. The solver itself is not in the
repository. This project models the two pieces of sequential logic the
repository does contain, both in `src/app/page.tsx`:

* `formatEquation`, the preview text of a linear expression such as
  `Z = 3x1 - 1x2 + 5x3` for an objective (a magnitude of one is always
  printed there) or `3x1 - x2 + 5x3` for a constraint side (modules
  `Equation` and `EquationReading`);
* the state held by the form and the handlers that edit it, together with
  the request record built from it on submission (modules `Editor`,
  `Request` and `Session`).

Numeric entries are what `parseFloat` yields — a finite number, `NaN`, or
(not modelled) an infinity — plus `null`, which the source also tests for
(`Numbers.Coef`). A finite
double is modelled by the exact real it denotes. JavaScript's conversion of
a magnitude to text is a parameter `show: real -> string` of the formatter;
where a property needs it, the hypothesis `EquationReading.NumeralLike`
states what that conversion does on positive finite numbers (non-empty,
starts with a digit, contains no `x`). Variable numbers (`x${index + 1}`)
are integers and are written out exactly by `Decimal.NatText`.

Files: `numbers.dfy`, `decimal.dfy`, `option.dfy` (helpers),
`equation.dfy`, `reading.dfy`, `editor.dfy`, `request.dfy`, `session.dfy`.

## Model

| member | source | states |
|---|---|---|
| `Equation.FormatEquation` | src/app/page.tsx:52-82 | The single pass with the `hasTerms` flag and the `"0"` fallback produces exactly the term-by-term description `Expression`: prefix, then one term per listed coefficient, the first without a separator. |
| `Equation.TermsSound` | src/app/page.tsx:59-62 | Every listed term comes from an entry that is a non-zero number, at that entry's position and with its value. |
| `Equation.TermsOrdered` | src/app/page.tsx:59 | Terms are listed in strictly increasing order of position, so each position gives at most one term. |
| `Equation.TermsComplete` | src/app/page.tsx:59-62 | Every entry that is a non-zero number gives a term. |
| `Equation.ConstraintSideZero` | src/app/page.tsx:56-81 | Outside the objective the preview is `"0"` if and only if no entry is a non-zero number. |
| `Equation.ObjectiveHeader` | src/app/page.tsx:56-81 | The objective preview always begins with `"Z = "`, so it is never `"0"`, and it is exactly `"Z = "` if and only if no entry is a non-zero number. |
| `EquationReading.ReadExpression` | src/app/page.tsx:59-79 | Reading the preview back recovers, in order, one term per non-zero entry: subtracted exactly when the coefficient is negative (a leading `-` on the first term, `" - "` versus `" + "` between terms), the magnitude text of `abs(coef)` elided exactly when it is 1 outside the objective, and variable number position + 1. |
| `Decimal.NatText` | src/app/page.tsx:77 | The variable number is written as a canonical decimal numeral, `"0"` only for zero. |
| `Decimal.ValueOfNatText` | src/app/page.tsx:77 | Reading the numeral of a variable number gives that number back. |
| `Decimal.NatTextOfValue` | src/app/page.tsx:77 | Every canonical numeral is the numeral of the number it denotes, so numerals and numbers correspond one to one. |
| `Numbers.Abs` | src/app/page.tsx:72 | `Math.abs` of a finite number: non-negative, and equal to the number or its negation. |
| `Numbers.Zeros` | src/app/page.tsx:129 | `new Array(n).fill(0)` (also at lines 207 and 211): exactly `n` entries, every one the number zero. |
| `Editor.Initial` | src/app/page.tsx:86-91 | The form starts with two variables, maximising, a zero objective of length 2 and one all-zero constraint; this state is well shaped. |
| `Editor.SetObjective` | src/app/page.tsx:98-102 | Only the addressed objective entry changes; lengths, other entries and the constraints are untouched; shape is kept. |
| `Editor.SetCoefficient` | src/app/page.tsx:104-112 | Only the addressed left-hand-side cell changes; every other row, the other cells of the row, its `rhs` and `variation` are untouched; shape is kept. |
| `Editor.SetRhs` | src/app/page.tsx:114-118 | Only the addressed right-hand side changes; shape is kept. |
| `Editor.SetVariation` | src/app/page.tsx:120-124 | Only the addressed variation changes; shape is kept. |
| `Editor.AddConstraint` | src/app/page.tsx:126-131 | One row is appended with `numVariables` zero coefficients and zero `rhs` and `variation`; the existing rows are unchanged. |
| `Editor.Without` | src/app/page.tsx:134 | Filtering by position removes exactly the element at an in-range position, keeping the others in order, and changes nothing for an out-of-range position. |
| `Editor.RemoveConstraint` | src/app/page.tsx:133-136 | An in-range index shrinks the list by one, row k of the result is old row k before the index and old row k+1 from it on; an out-of-range index leaves the list unchanged. |
| `Editor.RemoveUndoesAdd` | src/app/page.tsx:126-136 | Removing the row just added restores the problem. |
| `Editor.Resize` | src/app/page.tsx:204-214 | The chosen count becomes `numVariables`; the objective and every left-hand side become that many zeros; each row keeps its `rhs` and `variation`; the result is well shaped whatever the input was. |
| `Editor.SetMaximize` | src/app/page.tsx:186-188 | Only the optimisation sense changes. |
| `Request.BuildRequest` | src/app/page.tsx:139-145 | The sense and objective pass through; `lhs_ineq`, `rhs_ineq` and `desired_variations` each have one entry per constraint, entry k taken from constraint k. |
| `Request.RequestRoundTrip` | src/app/page.tsx:139-145 | Putting the three request arrays back together gives the constraint list unchanged. |
| `Request.RequestAligned` | src/app/page.tsx:34-40 | A problem is well shaped exactly when its objective has `numVariables` entries and its request has aligned arrays with every row as long as the objective. |
| `Session.Apply` | src/app/page.tsx:98-214 | Every action the form offers keeps the problem well shaped. |
| `Session.RunKeepsShape` | src/app/page.tsx:98-214 | Any sequence of offered actions from a well-shaped state ends in a well-shaped state. |
| `Session.ReachableShape` | src/app/page.tsx:86-145 | From the initial state, every reachable problem is well shaped and the request built from it has aligned arrays whose rows are as long as the objective. |

## Left out

- The simplex solver, shadow prices and variation feasibility: they run in the remote service the form posts to (src/app/page.tsx:148); their code is not in the repository.
- HTTP, JSON encoding and the error handling of `handleSubmit` (src/app/page.tsx:147-165) are I/O. In particular `JSON.stringify` sends a `NaN` entry as `null`; the request is modelled before encoding.
- React rendering, the tabs, the results tables, the `useEffect` that removes a DOM node, and the hard-coded `x₁, x₂ ≥ 0` preview line (src/app/page.tsx:94-96, 168-451) are user interface.
- JavaScript's number-to-text conversion of `absCoef` (src/app/page.tsx:74) is the parameter `show`; `parseFloat` of the inputs and `toFixed` in the results are float formatting and are not modelled. Infinite values (an input such as `1e999`) are not among the modelled entries.
- `parseInt` of the selector value (src/app/page.tsx:205) is not modelled: the count is a natural number, and a session only offers 2, 3 and 4 as the selector does.
- The handlers share row objects with the previous state (the shallow copy at src/app/page.tsx:109 mutates the old row in place); updates are modelled as pure functions, which gives the same new state.
- Editor.SetObjective: requires the index of an existing cell. The form only binds this handler to inputs rendered from the existing arrays (src/app/page.tsx:230-240, 276-319); an out-of-range index would grow the JavaScript array with holes or throw, and that behaviour is not modelled.
- Editor.SetCoefficient: requires the index of an existing cell. The form only binds this handler to inputs rendered from the existing arrays (src/app/page.tsx:230-240, 276-319); an out-of-range index would grow the JavaScript array with holes or throw, and that behaviour is not modelled.
- Editor.SetRhs: requires the index of an existing cell. The form only binds this handler to inputs rendered from the existing arrays (src/app/page.tsx:230-240, 276-319); an out-of-range index would grow the JavaScript array with holes or throw, and that behaviour is not modelled.
- Editor.SetVariation: requires the index of an existing cell. The form only binds this handler to inputs rendered from the existing arrays (src/app/page.tsx:230-240, 276-319); an out-of-range index would grow the JavaScript array with holes or throw, and that behaviour is not modelled.
- EquationReading.ReadExpression: it assumes `NumeralLike(show)`, which holds for JavaScript's conversion of positive finite numbers but is not derived from it.
- next.config.ts is build configuration.
