# Beam calculator core in Dafny

This project models the symbolic core of a beam calculator, as pure functions over exact reals.

- **Terms.** A bending moment, slope or deflection is a list of singularity-function terms `k<x-a>^n`. A term is zero left of its domain start `a` and equals `k (x-a)^n` from `a` onwards.
- **List algebra.** Two like terms add into one. A list's value at a position is the sum of its terms' values. Simplification merges like terms and drops zero terms. Integration works term by term. Integration constants are solved so that the integrated list meets boundary conditions.
- **Determinacy.** The analysis record counts the reaction components of its supports (roller 1, pin 2, fixed 3) and classifies the beam as a mechanism, determinate or indeterminate.
- **Input records.** Supports and loads are checked records.
- **Input form.** The form validates beam length, second moment of area and Young's modulus, and converts them to SI units.

Modules, one per file:

- `Common` (`common.dfy`): `Option`, `Result`, and `Arg`, a constructor argument that is either a number or a string.
- `SingularityFunction` (`singularity_function.dfy`): the term, its value, its setters, and the special cases of its text.
- `BeamMath` (`beam_math.dfy`): term addition, list value, and the summing loop.
- `Simplify` (`simplify.dfy`): merging like terms.
- `Integration` (`integration.dfy`): single and double integration, and integration with boundary conditions.
- `Supports` (`support.dfy`) and `Forces` (`force.dfy`): the value records.
- `BeamAnalysis` (`beam_analysis.dfy`): the analysis record and the determinacy check.
- `ValidateInput` (`validate_input.dfy`): validators, SI conversion, and the show/hide decision.

The model follows the code on these points:

- Like terms are compared exactly (`!=` at `beamSolver/beamMath.js:16`).
- Every error is a plain `Error` carrying one of the code's messages (`beamSolver/beamMath.js:17`, `beamSolver/support.js:7`, `beamSolver/force.js:8`), modelled as `Result.Failure(message)`.
- `evaluate` is called on terms but never defined in the term class. It is modelled from the class's own doc comment at `beamSolver/singularityFunction.js:3`.
- `simplify`, the integrations and the constant solving exist only as test assertions in `test/beamMath.test.js`. They are modelled as pure functions.
- `Simplify.SimplifyList` keeps the surviving terms in the order in which each key first occurs. For the test's list this is the exact order the test lists.

Two constant terms appear in the integration results: the step `c<x-0>^0` and the ramp `c<x-0>^1`. Both are zero left of the origin. So the boundary-condition round trips hold at positions `x >= 0`, which covers every position on the beam. `Integration.IntegrateWithConstant` also states what happens at a negative position: there the constant has no effect.

## Model

| member | source | states |
|---|---|---|
| SingularityFunction.Evaluate | beamSolver/singularityFunction.js:2-4 | a term is 0 left of its domain start; at the domain start it is 0 for exponent >= 1 and equals the scale for exponent 0; a zero-scale term is 0 everywhere |
| SingularityFunction.EvaluateSign | beamSolver/singularityFunction.js:3 | right of the domain start a term has the sign of its scale, so it is zero there only when its scale is zero |
| SingularityFunction.SetDomainStart | beamSolver/singularityFunction.js:18-20 | the setter replaces the domain start and keeps scale and exponent |
| SingularityFunction.SetScale | beamSolver/singularityFunction.js:26-28 | the setter replaces the scale and keeps domain start and exponent |
| SingularityFunction.SetExponent | beamSolver/singularityFunction.js:34-36 | the setter replaces the exponent and keeps domain start and scale |
| SingularityFunction.SettersRebuild | beamSolver/singularityFunction.js:7-36 | setting a field to its own value is the identity, and the three setters applied in turn yield exactly the constructed term |
| SingularityFunction.TextOf | beamSolver/singularityFunction.js:46-56 | the text is "0" exactly when the scale is 0; it is the bare scale exactly when the scale is non-zero and both exponent and domain start are 0 |
| SingularityFunction.TextMatchesValue | beamSolver/singularityFunction.js:46-56 | a term rendered "0" is zero everywhere; a term rendered as its scale equals that scale at every x >= 0 and is zero left of the origin |
| BeamMath.AddTerms | beamSolver/beamMath.js:13-25 | addition fails, with the code's message, exactly when domain starts or exponents differ; on success the scales add and the shared domain start and exponent are kept |
| BeamMath.AddCommutes | beamSolver/beamMath.js:16-22 | addition is defined for (a, b) iff for (b, a), and then gives the same term |
| BeamMath.AddValue | beamSolver/beamMath.js:20-24 | the sum of two like terms has, at every x, the sum of their values |
| BeamMath.EvaluateList | beamSolver/beamMath.js:33-41 | the left-to-right loop computes the sum of the term values; the empty list gives 0; a list is 0 left of every domain start |
| BeamMath.ListValueAppend | beamSolver/beamMath.js:35-40 | the value of a concatenation is the sum of the values of the parts |
| BeamMath.ListValueBelowAll | beamSolver/beamMath.js:35-40 | a list is 0 at any x below every term's domain start |
| BeamMath.EvaluateListExample | test/beamMath.test.js:61-72 | 0.5<x-3> - <x-5>^2 + 2<x-7>^3 is 1 at x = 5.5 |
| Simplify.SimplifyList | test/beamMath.test.js:74-104 | the result has no zero-scale term and no two like terms, and is no longer than the input; each surviving term carries the sum of the scales of its like terms in the input; every key whose summed scale is non-zero survives |
| Simplify.SimplifyValue | test/beamMath.test.js:76-89 | simplification leaves the list's value unchanged at every x |
| Simplify.SimplifyFixesSimplified | test/beamMath.test.js:84-103 | a list already free of zero terms and like pairs is returned unchanged |
| Simplify.SimplifyIdempotent | test/beamMath.test.js:84-103 | simplifying twice is the same as simplifying once |
| Simplify.SimplifyExample | test/beamMath.test.js:74-104 | the test's five-term list simplifies to <x-3>^2, -2.5<x-2>, <x-4>^2 |
| Integration.IntegrateTerm | test/beamMath.test.js:106-113 | the integral keeps the domain start, raises the exponent by one, and its scale times (n+1) is the original scale |
| Integration.IntegrateDerivativeRoundTrip | test/beamMath.test.js:106-113 | differentiating the integral gives back the term; integrating the derivative of a term with exponent >= 1 gives back the term |
| Integration.IntegrateValue | test/beamMath.test.js:106-113 | the integral is 0 at the domain start, and (n+1) F(x) = (x-a) f(x) at every x |
| Integration.IntegrateList | test/beamMath.test.js:116-134 | list integration keeps length and order and integrates every term, zero-scale terms included |
| Integration.DoubleIntegrateTerm | test/beamMath.test.js:168-175 | double integration equals integrating twice, with domain start kept and exponent raised by two |
| Integration.DoubleIntegrateList | test/beamMath.test.js:177-194 | double integration of a list works term by term and equals integrating the list twice |
| Integration.ConstantTermsValue | beamSolver/singularityFunction.js:3 | c<x-0>^0 is c and c<x-0>^1 is c x for x >= 0; both are 0 left of the origin |
| Integration.IntegrateWithConstant | test/beamMath.test.js:136-166 | the result is the integrated list plus one final c<x-0>^0 term, and it takes the value y1 at x1 for every x1 >= 0 |
| Integration.IntegrateWithConstantExamples | test/beamMath.test.js:136-166 | the test's two lists and boundary conditions give the constants -2/3 and -3 |
| Integration.DoubleIntegrateWithTwoConstants | test/beamMath.test.js:196-219 | for x1 != x2 the result is the doubly integrated list plus c1<x-0>^1 then c2<x-0>^0, passing through (x1, y1) and (x2, y2) at non-negative positions; equal positions give no result |
| Integration.SolveConstants | test/beamMath.test.js:196-219 | for x1 != x2 the constants (c1, c2) put the line through the two conditions: I1 + c1 x1 + c2 = y1 and I2 + c1 x2 + c2 = y2 |
| Integration.DoubleIntegrateWithTwoConstantsExample | test/beamMath.test.js:196-219 | the test's list through (1, 2) and (4, 1.5) gives c1 = -85/12 and c2 = 109/12 |
| Supports.ParseSupportKind | beamSolver/support.js:5-8 | only the exact strings PIN, ROLLER and FIXED are support kinds |
| Supports.SupportKindRoundTrip | beamSolver/support.js:5-8 | reading back the name of a kind gives the kind |
| Supports.NewSupport | beamSolver/support.js:3-14 | construction fails with the code's message exactly for kind arguments other than the three names; a new support has the given position and kind and no reactions |
| Supports.SetReactionForce | beamSolver/support.js:24-30 | the setter writes the reaction force and changes nothing else |
| Supports.SetReactionMoment | beamSolver/support.js:32-38 | the setter writes the reaction moment and changes nothing else |
| Supports.ReactionWritesCommute | beamSolver/support.js:24-38 | the two reaction writes commute and never change position or kind |
| Supports.SupportExample | test/support.test.js:39-72 | the tests' roller at 10.4 is built with no reactions, OTHER is rejected, and the reactions -20.4 and 2.4 are stored |
| Forces.ParseForceKind | beamSolver/force.js:6-9 | only the exact strings POINT, MOMENT, UNIFORM and TRIANGLE are load kinds |
| Forces.ForceKindRoundTrip | beamSolver/force.js:6-9 | reading back the name of a load kind gives the kind |
| Forces.NewForce | beamSolver/force.js:5-26 | construction fails with the code's message exactly for kind arguments other than the four names; otherwise position, kind and load are stored as given |
| Forces.NumericKindRejected | test/force.test.js:11 | a number passed as the kind, as in the two-argument calls, is rejected |
| Forces.PointLoadAccepted | test/beamAnalysis.test.js:12 | the evidently intended call with kind POINT builds the load at position 3 with magnitude 1 |
| Forces.DownwardPointLoadAccepted | test/force.test.js:6-15 | the evidently intended call with kind POINT builds the load whose position 10.4 and load -42 read back as given |
| BeamAnalysis.Initialise | beamSolver/beamAnalysis.js:24-28 | supports, loads and length are replaced; flags, equation lists and material constants are kept |
| BeamAnalysis.ResetAnalysis | beamSolver/beamAnalysis.js:30-38 | all three flags are cleared and the three equation lists emptied; supports, loads, length, modulus, density and inertia are kept |
| BeamAnalysis.ResetFacts | beamSolver/beamAnalysis.js:6-38 | a new record is already reset; reset is idempotent and commutes with initialise |
| BeamAnalysis.DeterminacyByKind | beamSolver/beamAnalysis.js:47-60 | the total of reaction components is #ROLLER + 2 #PIN + 3 #FIXED |
| BeamAnalysis.Classify | beamSolver/beamAnalysis.js:62-77 | mechanism iff total < 3 or three rollers alone; determinate iff total = 3 and not three rollers alone; indeterminate iff total > 3 |
| BeamAnalysis.CheckDeterminacy | beamSolver/beamAnalysis.js:40-80 | the one-pass count returns the total of reaction components and sets exactly the flag of the classification; beam and equation lists are untouched |
| BeamAnalysis.CountIsMultiplicity | beamSolver/beamAnalysis.js:47-60 | each kind count is the multiplicity of the kind among the supports' kinds |
| BeamAnalysis.ClassifyIgnoresOrderAndPosition | beamSolver/beamAnalysis.js:47-77 | supports with the same multiset of kinds give the same total and classification, whatever their order and positions |
| BeamAnalysis.ClassifyExamples | test/beamAnalysis.test.js:20-28 | PIN@0 with ROLLER@5 is determinate with total 3; two rollers and three rollers are mechanisms; one fixed end is determinate; a pin and two rollers are indeterminate with total 4 |
| ValidateInput.ConvertBeamLengthToSI | scripts/validateInput.js:162-174 | m is the identity, cm divides by 100, mm by 1000, any other unit gives no value |
| ValidateInput.ConvertInertiaToSI | scripts/validateInput.js:176-187 | m^4 is the identity, cm^4 divides by 100^4, mm^4 by 1000^4, any other unit gives no value |
| ValidateInput.ConvertModulusToSI | scripts/validateInput.js:189-200 | GPa multiplies by 10^9, MPa by 10^6, kPa by 1000, any other unit gives no value |
| ValidateInput.ConversionKeepsSign | scripts/validateInput.js:162-200 | a positive input in a known unit converts to a positive SI value |
| ValidateInput.ConversionsAgree | scripts/validateInput.js:162-200 | one physical quantity written in different known units converts to the same SI value |
| ValidateInput.Validate | scripts/validateInput.js:65-119 | empty text gives the "cannot be empty" message, a non-positive number the "must be positive" message, both with the flag false and the remembered value and unit kept; any other input, non-numeric text included (its comparison with 0 is false), is accepted with an empty message and remembered with its unit |
| ValidateInput.ValidateBeamLength | scripts/validateInput.js:65-81 | the length rule with the beam-length messages; inertia and modulus are untouched |
| ValidateInput.ValidateInertia | scripts/validateInput.js:83-100 | the inertia rule with the moment-of-inertia messages; length and modulus are untouched |
| ValidateInput.ValidateModulus | scripts/validateInput.js:102-119 | the modulus rule with the Young's modulus messages; length and inertia are untouched |
| ValidateInput.ValidatorsPreserveConsistency | scripts/validateInput.js:14-24 | the initial state is consistent, and every validator keeps every validated flag backed by a remembered accepted value (a positive number or non-numeric text) and a unit |
| ValidateInput.TriggerVisualisation | scripts/validateInput.js:127-140 | the beam is shown iff all three flags are true; when shown, each remembered number is sent through its own unit conversion with its remembered unit; when hidden, or for non-numeric text, the quantity is sent as not-a-number |
| ValidateInput.ShownQuantitiesArePositive | scripts/validateInput.js:127-140 | on a consistent, fully validated form the beam is shown; each quantity is a number exactly when its input was a number in a known unit, and every number shown is positive |
| ValidateInput.TextIsAccepted | scripts/validateInput.js:65-80 | non-numeric length text is accepted with no message, remembered with its unit and flag, and later sent as not-a-number |

## Left out

- Determinate reaction solving, the force method for indeterminate beams, Gauss–Legendre quadrature and the linear solve: `calculateReactions` is an empty body (`beamSolver/beamAnalysis.js:82-87`) and none of the others exists in the code.
- `doubleIntegrateWithOneConstant`: its test (`test/beamMath.test.js:221-238`) asserts nothing. Its expected constant 23/12 does not satisfy its own slope condition y'(1) = 2.
- SingularityFunction.TextOf: only the zero and bare-constant branches are modelled, as a tagged result. The general branch reads an undefined field and an unbound name, and its template string keeps only the exponent. The `toPrecision(5)` rounding of the constant branch is also not modelled.
- SingularityFunction.Evaluate: exponents are natural numbers. Negative and fractional exponents, which only the test of the broken general text branch uses, are not modelled. An exponent of -1 would make integration divide by zero.
- Integration.IntegrateWithConstant: the boundary value is met only for x1 >= 0. The constant c<x-0>^0 is zero left of the origin, and the contract states that case separately.
- Integration.DoubleIntegrateWithTwoConstants: the boundary values are met only at positions >= 0. Equal positions return no result, because the closed form divides by x2 - x1.
- The 1e-6 tolerance of the test helper, and floating-point rounding in general: the model uses exact reals.
- ValidateInput.Validate: JavaScript's string-to-number coercion itself is not modelled. An input is given already classified as empty text, text that coerces to a number, or text that coerces to not-a-number. Not-a-number results are `None`. For the identity units `m` and `m^4` the code sends the raw text itself (`scripts/validateInput.js:166,179`); the model sends not-a-number.
- The DOM listeners, the `CustomEvent` dispatch and the console logging in `scripts/validateInput.js`. TriggerVisualisation takes the form state in place of the three flag arguments; the listeners always pass those flags.
- `scripts/beamTracker.js`, `scripts/beamInterface.js` and `scripts/script.js`: canvas drawing, event glue, and an older copy of the validators.
- The material constants `modulus`, `density` and `inertia` of the analysis record are stored but never used, so no EI scaling is modelled.
- The load of a `Force` is a number; other argument types for it are not modelled.

## Findings

| source | as written | input that shows it | evidently intended | confidence | as-written member | corrected member |
|---|---|---|---|---|---|---|
| test/beamAnalysis.test.js:12 | the load is built as `new Force(3, 1)`, passing the magnitude where the kind belongs | `new Force(3, 1)`: the number 1 is not a kind, so the constructor throws before the determinacy test runs | `new Force(3, "POINT", 1)`, a unit point load at 3 | high, not executed | Forces.NumericKindRejected | Forces.PointLoadAccepted |
| test/force.test.js:11 | the point load is built as `new Force(position, load)`, passing the load where the kind belongs | `new Force(10.4, -42)`: the number -42 is not a kind, so the constructor throws before the asserts on position and load run | `new Force(10.4, "POINT", -42)`, a downward point load at 10.4 | high, not executed | Forces.NumericKindRejected | Forces.DownwardPointLoadAccepted |
