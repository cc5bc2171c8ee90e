# Linear regression teaching page — verified model

The page plots 24 noisy points. The user drags a line over them with a slope
slider and an intercept slider and watches the sum of squared errors (SSE) change.
An "Auto-Fit" button replaces the line with the ordinary-least-squares (OLS) fit.
A prediction slider marks the line's value at a chosen x, and a four-step
tutorial panel explains the idea. This project models the computational core of
`app.js` in Dafny and proves what it promises.

All numbers are Dafny `real`s, so IEEE-754 rounding is abstracted away.

Modules:

- `Domain` (`domain.dfy`): the point record, the fixed world domain [0,10] x [0,10], and the line `y = m*x + b`.
- `Fit` (`fit.dfy`): sums over the point list; the SSE; the OLS closed form. It also holds the lemmas: SSE sign and zero cases, the degenerate-variance rule, the centroid, global optimality and exact recovery.
- `Screen` (`screen.dfy`): the world-to-screen transform with padding 40. The canvas size is a parameter.
- `DataGen` (`datagen.dfy`): `generateData`. The standard-normal draws are supplied as a sequence.
- `Tutorial` (`tutorial.dfy`): the four-entry step table.
- `App` (`app.dfy`): the view-model `{m, b, xPred, points, step}` as a class. Its methods are the UI handlers' state updates, `computeSSE` and `autoFit`.

`computeSSE`, `autoFit` and `generateData` are loops in the source, and they are loops with invariants here.
Each is proved against a specification function:

- `Sse` and `FitSlope`/`FitIntercept` are built on the recursive `Sum(ps, f)`, which adds `f` over the points, first to last, exactly as the loops accumulate.
- `Samples` is a sequence comprehension giving point i directly.

The properties are lemmas about those functions.

The step handler (app.js:251) neither checks nor clamps the index, and `updateStepText` indexes the table directly (app.js:277). So `SelectStep` requires `0 <= s < 4`.

## Model

| member | source | states |
|---|---|---|
| Domain.YOnLine | app.js:120 | Definition of the line m*x + b; its shape is stated by Domain.LineRise. |
| Fit.Sum | app.js:179-182 | Definition: the first-to-last sum of a per-point quantity, matching the accumulator loops (also app.js:210-212). Generic facts: Fit.SumCombine, Fit.SumZeroIff; loop link: App.ViewModel.ComputeSse, App.ViewModel.AutoFit. |
| Fit.Average | app.js:213-214 | Definition of s/n for n > 0 (0 for an empty list, which the source leaves as NaN); used by Fit.MeanOfConstantX. |
| Fit.MeanX | app.js:213 | Definition of meanX = Σx/n; stated by Fit.MeanOfConstantX and Fit.FitThroughCentroid. |
| Fit.MeanY | app.js:214 | Definition of meanY = Σy/n; stated by Fit.FitThroughCentroid and Fit.AllXEqualFit. |
| Fit.CentredMoment | app.js:215-216 | Definition of sum/n - mx*my, the shared form of covXY and varX; stated through Fit.VarXScaled. |
| Fit.CovXY | app.js:215 | Definition of covXY = Σxy/n - meanX*meanY; used by Fit.MomentBalances. |
| Fit.VarX | app.js:216 | Definition of varX = Σx²/n - meanX²; stated by Fit.VarXScaled, Fit.VarXNonnegative and Fit.VarXZeroIff. |
| Fit.SlopeOf | app.js:217 | Definition of the guarded division cov/var, 0 when var is 0; stated by Fit.AllXEqualFit. |
| Fit.FitSlope | app.js:217 | Definition of the fitted slope; stated by Fit.OlsMinimizesSse, Fit.AllXEqualFit and Fit.OlsRecoversExactLine. |
| Fit.InterceptOf | app.js:218 | Definition of meanY - m*meanX; stated by Fit.FitThroughCentroid. |
| Fit.FitIntercept | app.js:218 | Definition of the fitted intercept; stated by Fit.FitThroughCentroid and Fit.OlsMinimizesSse. |
| Domain.LineRise | app.js:120 | The line takes the value b at x = 0 and rises by m*(x2-x1) between any two x values. |
| Fit.Sse | app.js:177-184 | The sum of squared residuals is never negative. |
| Fit.SseZeroIff | app.js:179-181 | The SSE is 0 exactly when every point satisfies p.y == m*p.x + b (both directions). |
| Fit.ResidualSumClosed | app.js:209-211 | The residuals sum to Sy - m*Sx - b*n, where Sy and Sx are the running sums the fit accumulates. |
| Fit.VarXScaled | app.js:213-216 | n * varX equals the sum of squared deviations of x from meanX. |
| Fit.VarXNonnegative | app.js:216 | varX is never negative. |
| Fit.VarXZeroAtMean | app.js:216 | varX == 0 exactly when every x equals meanX. |
| Fit.VarXZeroIff | app.js:216-217 | varX == 0 exactly when all points share one x value (both directions). |
| Fit.MeanOfConstantX | app.js:213 | When every x equals c, meanX == c. |
| Fit.AllXEqualFit | app.js:216-218 | With all x equal, the fit yields slope 0 and intercept meanY instead of dividing by zero. |
| Fit.FitThroughCentroid | app.js:213-218 | The fitted line passes through (meanX, meanY). |
| Fit.InterceptBalances | app.js:213-218 | At the fitted line, Sy - m*Sx - b*n == 0. |
| Fit.FitResidualSumZero | app.js:213-218 | The residuals of the fitted line sum to zero. |
| Fit.MomentBalances | app.js:213-218 | With varX != 0, at the fitted line, Sxy - m*Sxx - b*Sx == 0. |
| Fit.FitResidualMomentZero | app.js:213-218 | The x-weighted residuals of the fitted line sum to zero, in the degenerate case as well. |
| Fit.SseShift | app.js:177-184 | Moving from line (m, b) to (m', b') lowers the SSE by at most 2(m'-m)·Σr·x + 2(b'-b)·Σr, where r are the residuals of (m, b). |
| Fit.OlsMinimizesSse | app.js:206-218 | No line (m, b) has a smaller SSE than the fitted line. This is the claim behind the "Ordinary Least Squares" comment. |
| Fit.OlsRecoversExactLine | app.js:206-218 | Points that all lie on one line, with at least two distinct x values, are fitted by exactly that line. |
| Fit.PerfectLineScenario | app.js:206-218 | The points (0,1), (1,2), (2,3) are fitted with slope 1 and intercept 1, and that line has SSE 0. |
| Fit.FitGuarantees | app.js:206-218 | The fitted line meets the centroid, falls back to slope 0 and intercept meanY when all x are equal, and minimises the SSE. |
| Screen.WorldToScreen | app.js:55-62 | Definition of the padded, y-inverted affine map; stated by Screen.CornersMapToFrame, Screen.WorldToScreenMonotone and Screen.WorldScreenRoundTrip. |
| Screen.ScreenToWorld | app.js:55-62 | A reference inverse of the transform exists for a non-degenerate frame: mapping its result to the screen gives the pixel back. |
| Screen.WorldScreenRoundTrip | app.js:55-62 | World to screen and back gives the original point. |
| Screen.CornersMapToFrame | app.js:55-62 | (xMin,yMin) maps to (pad, pad+h) and (xMax,yMax) maps to (pad+w, pad). The other two corners map to the other two frame corners. |
| Screen.ScreenXIgnoresY | app.js:55-62 | The screen x depends on the world x alone, so each residual drawn at app.js:152-157 is a vertical segment. |
| Screen.WorldToScreenMonotone | app.js:55-62 | With w > 0, screen x strictly increases with x; with h > 0, screen y strictly decreases with y. |
| Screen.DomainInsideFrame | app.js:55-62 | Every point of [0,10] x [0,10] is drawn inside the padded frame. |
| DataGen.BinMidpoint | app.js:47 | Definition of x_i = (i+0.5)*10/24; stated by DataGen.SamplesIncreasingX and DataGen.SamplesInsideDomain. |
| DataGen.Sample | app.js:47-50 | Definition of point i, y = 1.2x + 1.0 + 0.6*draw_i; stated by DataGen.SampleResidualIsNoise. |
| DataGen.Samples | app.js:45-52 | Definition of the whole generated list; stated by DataGen.GenerateData and DataGen.NoiseFreeFitRecoversTrueLine. |
| DataGen.GenerateData | app.js:41-53 | From 24 draws the loop builds exactly Samples(draws): point i has x = (i+0.5)*10/24 and y = 1.2*x + 1.0 + 0.6*draw_i. |
| DataGen.SamplesIncreasingX | app.js:46-47 | There is one point per draw, and the x values are strictly increasing. |
| DataGen.SamplesInsideDomain | app.js:47 | Every generated x lies strictly inside (0, 10). |
| DataGen.SampleResidualIsNoise | app.js:48-49 | Each point's residual against y = 1.2x + 1.0 is its scaled draw, 0.6*draw_i. |
| DataGen.NoiseFreeFitRecoversTrueLine | app.js:41-53 | With all draws 0, Auto-Fit on the generated data recovers slope 1.2 and intercept 1.0 exactly. |
| Tutorial.StepTitles | app.js:259-276 | Definition of the four step titles in button order; stated by Tutorial.StepTitlesDistinct. |
| Tutorial.StepTitle | app.js:259-277 | A step title is defined only for 0 <= step < 4, and it is non-empty. |
| Tutorial.StepTitlesDistinct | app.js:259-276 | The table has four entries, and no two steps share a title. |
| Tutorial.FitStepTitle | app.js:268-271 | Step index 2 shows "Fit". |
| App.ViewModel.constructor | app.js:25-31 | Start-up state: the slider values, step 0 and the generated data set (the generation happens at app.js:282). Valid() holds: a valid step and 24 points. |
| App.ViewModel.ComputeSse | app.js:177-184 | The loop returns Sse(points, m, b). The result is never negative, and it is 0 exactly when every point is on the line. |
| App.ViewModel.AutoFit | app.js:206-223 | The one-pass loop sets m and b to FitSlope/FitIntercept. The line passes through the centroid, the all-x-equal case gives m = 0 and b = meanY, and no line has a smaller SSE. points, xPred and step are unchanged, and Valid() is preserved. |
| App.ViewModel.ResetData | app.js:225-228 | Points become the 24 points generated from the given draws; nothing else changes, and Valid() is preserved. |
| App.ViewModel.SetSlope | app.js:231-234 | The slope input sets m; nothing else changes, and Valid() is preserved. |
| App.ViewModel.SetIntercept | app.js:235-238 | The intercept input sets b; nothing else changes, and Valid() is preserved. |
| App.ViewModel.SetXPred | app.js:239-242 | The prediction input sets xPred; nothing else changes, and Valid() is preserved. |
| App.ViewModel.SelectStep | app.js:247-255 | A step button sets step to a valid index, so the step table can still be indexed; nothing else changes, and Valid() is preserved. |
| App.ViewModel.CurrentStepTitle | app.js:277 | For any valid current step, its title is looked up in the table, and it identifies the step uniquely. |

## Left out

- DOM lookup, event-listener wiring, `toFixed` formatting, `innerHTML` text, the footer year and the show-residuals checkbox (app.js:2-19, 186-194, 230-256, 278). They are presentation glue. The UI handlers' state updates are modelled as the `App.ViewModel` methods.
- All canvas drawing (`clear`, `drawAxes`, `drawLine`, `drawResiduals`, `drawPoints`, `drawPredictionMarker`, `render`). These are calls into the browser's canvas API and produce no checkable result. Only the coordinate transform they share is modelled.
- `randn` (Box–Muller over `Math.random`, `log`, `sqrt`, `cos`). Its outputs are a parameter: `GenerateData` takes one standard-normal draw per point.
- IEEE-754 floating point. The model uses exact reals, so rounding and overflow are not captured. In particular, Fit.AllXEqualFit and App.ViewModel.AutoFit rely on varX being exactly 0 when every x is equal. In doubles, `sumXX/n - meanX*meanX` need not be exactly 0 then, so the guard at app.js:217 may not fire; the exact-real model guarantees that it does.
- `parseFloat` / `parseInt` of widget values. The setters take the parsed real, and `SelectStep` takes the parsed integer.
- App.ViewModel.AutoFit: requires a non-empty point list. The source divides by n = 0 and yields NaN there. The total helper `Average` returns 0 for an empty list, but no guarantee is made about what the view would do.
- App.ViewModel.SelectStep: requires `0 <= s < 4`. The source would index past the table and fail on `s.t`, or on NaN from a non-numeric attribute.
- The step buttons' `data-step` attributes live in the page markup. That markup is not part of this model.
- Tutorial.StepTitle: only the titles of the step table are modelled. The explanatory paragraphs are static prose.
- Screen.WorldToScreen: pixel coordinates are reals with no rounding. The canvas size is passed in, not read from the element.
- App.ViewModel.ComputeSse and App.ViewModel.AutoFit iterate over a snapshot of `points`. The source reads the same array, and no handler runs concurrently in the page.
