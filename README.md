# Crease Pattern Analyzer — a Dafny model of its core

Crease Pattern Analyzer is an origami tool. It starts from the square (or
rectangular) sheet: its four corners and four edges. It applies the seven
Huzita–Justin folding axioms over and over, which gives points and creases
of increasing rank. Each new reference is kept only when it is not close to
one already found. The tool then finds the reference nearest to a target
point or line, and writes step-by-step folding instructions with a diagram
for every step.

The same application also contains:
- a small expression parser for the numbers typed into it: two stacks,
  operators by precedence, functions and constants;
- a red-black tree with an in-order listing and a generator;
- image helpers for reading crease patterns from pictures: the Zhang–Suen
  thinning step (`erode`/`thin`), speck removal, Otsu's threshold, the
  windowed maximum of a Hough accumulator, and `Array.minIndex`.

This project models those parts in Dafny and proves what they promise.
Floating-point numbers are modelled as `real`. Trigonometric and other
library functions are a parameter of type `Libm`. Text formatting of
numbers is a parameter as well.

Modules, in the order of the table below:
- `Geometry` and `Paper`: vectors, lines, the paper rectangle and the
  point/line bucket keys.
- `References` and `Finder`: the stored points and lines, and the
  reference finder's state.
- `Axioms`: the seven constructions.
- `Enumeration`, `Generation` and `Construction`: the rank-by-rank closure.
- `Matching`: the nearest reference.
- `Instructions`, `Coalescing` and `Pairs`: the instructions and diagrams.
- `Lexer` and `Parsing`: the parser.
- `RedBlackTree`, `TreeShape`, `TreeColoring`, `TreeRotation` and
  `TreeTraversal`: the tree,
  with nodes kept in arrays indexed by node number. `TreeAsWritten`: the
  tree's repair loop and generator as the program runs them, with its own
  `rightRotate`.
- `Grids`, `Thinning`, `BinaryImages`, `Otsu`, `Windows`, `Neighbourhood`
  and `MinIndex`: the image helpers.

Where code and design disagree, the model follows the code. Each place where
the code is evidently wrong is modelled twice, as written and corrected; see
"## Findings". The operations built on top of such a place (the rank loop,
the tree's insertion, the instruction builder's A7 sentence, point
equality in the reference sets) use the corrected behaviour, and each is
listed under "## Left out" with what the program does instead.

## Model

| member | source | states |
|---|---|---|
| `Libm.Floor` | CreasePatternAnalyzer/Models/PointVector.swift:21-22 | the integer is the floor of its argument: at most `x`, and `x` is below it plus one |
| `Libm.FmodOne` | CreasePatternAnalyzer/Models/Line.swift:25-27 | `fmod(x, 1)` lies in `[0, 1)` for non-negative `x` and in `(-1, 0]` for negative `x` |
| `Libm.FloorDiv` | CreasePatternAnalyzer/utils.swift:39-41 | the overridden integer `/` is the floor of the real quotient |
| `Libm.FloorDivPositive` | CreasePatternAnalyzer/utils.swift:39-41 | for a positive divisor the overridden `/` agrees with Euclidean integer division |
| `Geometry.AddAssign` | CreasePatternAnalyzer/Models/PointVector.swift:105-108 | `left += right` leaves `left` equal to `left + right`, and subtracting `right` gives the old `left` back |
| `Geometry.SubAssign` | CreasePatternAnalyzer/Models/PointVector.swift:109-112 | `left -= right` leaves `left - right`, and adding `right` gives the old `left` back |
| `Geometry.MulAssign` | CreasePatternAnalyzer/Models/PointVector.swift:113-116 | `left *= right` leaves the componentwise product of the binary `*` |
| `Geometry.DivAssign` | CreasePatternAnalyzer/Models/PointVector.swift:117-120 | `left /= right` leaves the componentwise quotient; with non-zero components, multiplying by `right` gives the old `left` back |
| `Geometry.Chop` | CreasePatternAnalyzer/Models/PointVector.swift:64-67 | the in-place `chop()` leaves the vector equal to `chopped()` |
| `Geometry.ChoppedIdempotent` | CreasePatternAnalyzer/Models/PointVector.swift:69-71 | chopping twice is chopping once |
| `Geometry.AddThenSub` | CreasePatternAnalyzer/Models/PointVector.swift:79-84 | `(a + b) - b == a` and `(a - b) + b == a` |
| `Geometry.DotSymmetric` | CreasePatternAnalyzer/Models/PointVector.swift:41-43 | `a · b == b · a` |
| `Geometry.RotatedBy90Perpendicular` | CreasePatternAnalyzer/Models/PointVector.swift:37-56 | the right-angle rotation is perpendicular to the vector and keeps its squared magnitude |
| `Geometry.RotatedBy90FourTimes` | CreasePatternAnalyzer/Models/PointVector.swift:54-56 | two rotations negate the vector; four give it back |
| `Geometry.NormalizedIsUnit` | CreasePatternAnalyzer/Models/PointVector.swift:14-61 | given a square root that squares back, `normalized()` of a non-zero vector has length 1 and scaling it by the magnitude gives the vector back |
| `Geometry.PointKeyIsBucket` | CreasePatternAnalyzer/Models/PointVector.swift:18-76 | for points on the paper, two points have the same corrected key `1 + BucketX*(numY+1) + BucketY` exactly when both grid buckets agree; the program's `==` compares the colliding hash `1 + BucketX*numY + BucketY` instead (see "## Findings") |
| `Geometry.PointHashAsWrittenCollides` | CreasePatternAnalyzer/Models/PointVector.swift:18-24 | with a 5000-cell grid on the unit square, `(0.5, 1.0)` and `(0.5002, 0.0)` get the same `hashValue` as written, though their buckets differ |
| `Geometry.Line.YFromX` | CreasePatternAnalyzer/Models/Line.swift:98-100 | when the normal's `y` is non-zero, `(x, y(fromX: x))` lies on the line |
| `Geometry.Line.XFromY` | CreasePatternAnalyzer/Models/Line.swift:102-104 | when the normal's `x` is non-zero, `(x(fromY: y), y)` lies on the line |
| `Geometry.Line.DistanceTo` | CreasePatternAnalyzer/Models/Line.swift:122-124 | the distance is non-negative and is zero exactly for points on the line |
| `Geometry.Canonical` | CreasePatternAnalyzer/Models/Line.swift:64-67 | the sign flip every initialiser ends with: the distance becomes `abs(distance)`, the normal flips with it, and the set of points on the line is unchanged |
| `Geometry.LineThrough` | CreasePatternAnalyzer/Models/Line.swift:52-59 | `Line(_:_:)` has a non-negative distance and passes through both points |
| `Geometry.FromUnitNormal` | CreasePatternAnalyzer/Models/Line.swift:61-68 | `Line(distance:unitNormal:)` has distance `abs(distance)`, the given normal up to sign, and the same points as `unitNormal · p == distance` |
| `Geometry.FromNormal` | CreasePatternAnalyzer/Models/Line.swift:70-77 | `Line(distance:normal:)` has distance `abs(distance)` and the normalised normal up to sign |
| `Geometry.AtPoint` | CreasePatternAnalyzer/Models/Line.swift:80-87 | `Line(point:unitNormal:)` has a non-negative distance, passes through the point, and keeps the normal up to sign |
| `Geometry.AtPointNormal` | CreasePatternAnalyzer/Models/Line.swift:89-96 | `Line(point:normal:)` has a non-negative distance, passes through the point, and has the normalised normal up to sign |
| `Geometry.ReflectionInvolution` | CreasePatternAnalyzer/Models/Line.swift:106-108 | with a unit normal, reflecting a point twice gives it back |
| `Geometry.ReflectionFixesLine` | CreasePatternAnalyzer/Models/Line.swift:106-108 | reflection leaves every point of the line where it is |
| `Geometry.ProjectionOnLine` | CreasePatternAnalyzer/Models/Line.swift:110-112 | with a unit normal, the projection of any point lies on the line |
| `Geometry.Difference` | CreasePatternAnalyzer/Models/Line.swift:131-137 | the shift part of `-` is non-negative, and the angle part is `angle(first, second)` |
| `Geometry.Intersection` | CreasePatternAnalyzer/Models/Line.swift:148-159 | no point exactly when the lines are parallel; otherwise, for a positive tolerance, the denominator is non-zero and the point lies on both lines |
| `Geometry.CramerSolves` | CreasePatternAnalyzer/Models/Line.swift:152-158 | Cramer's formulas solve both line equations whenever the lines are not parallel |
| `Geometry.IntersectionWithAngle` | CreasePatternAnalyzer/Models/Line.swift:164-167 | no point when the angle is below `minAngle`; otherwise the same answer as `intersection` |
| `Paper.Rectangle.AspectRatio` | CreasePatternAnalyzer/Models/Rectangle.swift:35-39 | with positive sides the ratio is at least 1, and it is the longer side over the shorter |
| `Paper.Rectangle.Including` | CreasePatternAnalyzer/Models/Rectangle.swift:119-127 | the corners stretch to the componentwise min and max with the point; the result encloses the point and the old corners, and equals the old rectangle when the point was inside |
| `Paper.AtPoint` | CreasePatternAnalyzer/Models/Rectangle.swift:52-55 | `init(point:)` is a rectangle of width and height 0, without edges, enclosing the point |
| `Paper.FromCorners` | CreasePatternAnalyzer/Models/Rectangle.swift:57-96 | `init(bottomLeft:topRight:)` sets the four edge lines and their labelled references, the four corners on the right pairs of edges at the right coordinates, all of rank 0 and all seeds |
| `Paper.CornersOnTheirEdges` | CreasePatternAnalyzer/Models/Rectangle.swift:72-95 | every corner lies on both edge lines it is built from |
| `Paper.FromSize` | CreasePatternAnalyzer/Models/Rectangle.swift:98-101 | `init(width:height:)` is the rectangle from the origin to `(width, height)`, with those sides |
| `Paper.BoundingBox2` | CreasePatternAnalyzer/Models/Rectangle.swift:180-182 | the box runs from the componentwise minimum to the componentwise maximum and encloses both points |
| `Paper.BoundingBox3` | CreasePatternAnalyzer/Models/Rectangle.swift:185-188 | the same for three points |
| `Paper.InsertPoint` | CreasePatternAnalyzer/Models/Rectangle.swift:131-147 | inserting into the local point set adds the point only when no bucket-equal point is already there |
| `Paper.AddCrossing` | CreasePatternAnalyzer/Models/Rectangle.swift:132-147 | one edge's step of `clip` keeps the set bucket-distinct, adds at most the edge's crossing, and only when it lies within the edge's span |
| `Paper.EdgeCrossings` | CreasePatternAnalyzer/Models/Rectangle.swift:130-147 | the collected crossings are at most four, bucket-distinct, and each is an in-span crossing of some edge |
| `Paper.Clip` | CreasePatternAnalyzer/Models/Rectangle.swift:130-150 | nil exactly when fewer than two distinct crossings were found; otherwise two bucket-distinct crossings, which lie on the line for a positive tolerance |
| `Paper.OnLineWhenCrossing` | CreasePatternAnalyzer/Models/Rectangle.swift:132-147 | every collected crossing lies on the clipped line |
| `Paper.Bisector` | CreasePatternAnalyzer/Models/Rectangle.swift:159-161 | the bisector's normal is the line's normal turned by a right angle, and it passes through the midpoint of the two clip points |
| `Paper.ContainedLineIsClipped` | CreasePatternAnalyzer/Models/Rectangle.swift:155-177 | `contains(line:)` holds exactly when the line and its bisector both clip and neither bounding box's aspect ratio exceeds the maximum, the negation of `makesSkinnyFlap` |
| `References.DerivedPoint` | CreasePatternAnalyzer/References.swift:86-92 | a derived point starts with label `"_"`, the given rank, point and two lines |
| `References.SeedPoint` | CreasePatternAnalyzer/References.swift:94-100 | a corner point has rank 0, the given label, point and two lines |
| `References.SeedLine` | CreasePatternAnalyzer/References.swift:132-136 | an edge line has rank 0, no axiom and the given label |
| `References.DerivedLine` | CreasePatternAnalyzer/References.swift:138-142 | a folded line records its axiom and rank and starts with label `"_"` |
| `References.PointDescription` | CreasePatternAnalyzer/References.swift:61-66 | `"point X"` for a one-character label, otherwise the label itself |
| `References.LineDescription` | CreasePatternAnalyzer/References.swift:118-123 | `"line X"` for a one-character label, otherwise the label itself |
| `References.DescriptionsEndWithLabel` | CreasePatternAnalyzer/References.swift:61-123 | every description ends with its label, and distinct one-character labels give distinct descriptions |
| `References.RefEqualityIsKeyEquality` | CreasePatternAnalyzer/References.swift:68-130 | reference equality is hash equality of the wrapped geometry: reflexive, symmetric, and blind to rank and label |
| `References.AxiomPoints` | CreasePatternAnalyzer/References.swift:145-153 | the point inputs of each axiom case: two for A1, A2, A5 and A6, one for A4 and A7, none for A3 |
| `References.AxiomLines` | CreasePatternAnalyzer/References.swift:145-153 | the line inputs of each axiom case: none for A1 and A2, one for A4 and A5, two for A3, A6 and A7 |
| `References.InputsAreShallower` | CreasePatternAnalyzer/References.swift:47-105 | every input of a folded line is strictly shallower than the line, so no line cites itself and provenance is acyclic |
| `References.LinesOfPointAreShallower` | CreasePatternAnalyzer/References.swift:47-49 | the two lines of a point are strictly shallower than the point |
| `Axioms.Axiom1` | Axioms.swift:9-12 | a fold passes through both points and lies in the paper; nil exactly when the paper does not contain the line through them |
| `Axioms.Axiom2` | Axioms.swift:15-20 | a fold passes through the midpoint and lies in the paper; given a square root that squares back and distinct points, it reflects `p1` onto `p2` |
| `Axioms.Axiom2ReflectsOnto` | Axioms.swift:15-18 | the fold through the midpoint with the normalised half-difference as normal reflects `p1` onto `p2` |
| `Axioms.Axiom3` | Axioms.swift:25-38 | parallel lines give exactly the mid-parallel line; otherwise at most two folds, each through the intersection and in the paper, perpendicular to each other when both are kept |
| `Axioms.BisectorFolds` | Axioms.swift:30-37 | the two candidate bisectors pass through the intersection, only those the paper contains are kept, and two kept ones are perpendicular |
| `Axioms.Axiom4` | Axioms.swift:42-48 | nil when the projection of `p` falls outside the paper; a fold passes through `p`, lies in the paper and is perpendicular to the line |
| `Axioms.Axiom5` | Axioms.swift:54-85 | no fold when the circle misses the line, the single fold through `p2` along the line's normal when it is tangent, and in every case at most two folds, all through `p2`; when the circle cuts the line (given a square root that squares back and a unit normal) every fold brings `p1` onto the line |
| `Axioms.Axiom5Crossings` | Axioms.swift:66-83 | at most two folds, all through `p2`; when the circle reaches the line (given a square root that squares back and a unit normal) every fold brings `p1` onto the line |
| `Axioms.Axiom5Fold` | Axioms.swift:72-83 | one candidate image gives at most one fold, through `p2` and the midpoint of `p1` and the image, and none when the image is off the paper or the midpoint is bucket-equal to `p2`; for an image as far from `p2` as `p1` is, the fold reflects `p1` onto the image |
| `Axioms.CircleMeetsLine` | Axioms.swift:66-69 | both crossing points lie on the line and are exactly as far from `p2` as `p1` is, whenever the circle reaches the line |
| `Axioms.CrossingFoldsOnLine` | Axioms.swift:70-83 | the fold made from either crossing point brings `p1` onto the line |
| `Axioms.EquidistantFold` | Axioms.swift:72-76 | the line through `p2` and the midpoint of `p1` and `q`, for `q` as far from `p2` as `p1`, takes `p1` to `q` |
| `Axioms.Axiom5TangentMisses` | Axioms.swift:63-65 | for `p2 = (0, 0)`, the line `y = 1` and `p1 = (1, 0)` the circle touches the line, yet the one fold returned is `y = 0`, which leaves `p1` where it is, off the line |
| `Axioms.TouchingTakesTangent` | Axioms.swift:59-65 | when the radius equals the distance from `p2` to the line, `axiom5` returns the fold through `p2` along the line's normal |
| `Axioms.Axiom5Corrected` | Axioms.swift:54-85 | at most two folds, all through `p2`; with exact tangency or a secant, every fold brings `p1` onto the line |
| `Axioms.TangentFold` | Axioms.swift:63-65 | the corrected tangent fold passes through `p2` and, when the circle touches the line, takes `p1` to the touching point, which is on the line |
| `Axioms.TouchFoldReflects` | Axioms.swift:57-65 | the foot of the perpendicular from `p2` is on the line, and the fold through `p2` with normal `p1 - touch` takes `p1` onto it |
| `Axioms.BisectorThroughCentre` | Axioms.swift:72-76 | the fold through `p2` whose normal is `p1 - q`, for `q` as far from `p2` as `p1`, takes `p1` to `q` |
| `Axioms.Axiom6Frame` | Axioms.swift:93-112 | the frame's first axis is `line1`'s normal, the second is that normal turned by -90 degrees, and the cubic's leading coefficient is `u2 · u1P` |
| `Axioms.FoldedImage` | Axioms.swift:118 | with a unit normal, the image `u1 * d1 + u1P * (root + x1)` of a root lies on `line1` |
| `Axioms.Axiom6Fold` | Axioms.swift:117-133 | a root's fold lies in the paper, keeps the reflected `p2` on the paper, passes the side test as written (with `p1` in both factors), and, given a square root that squares back and a unit normal, puts the reflected `p1` on `line1` and on the paper; when the root is an exact root of the cubic it also puts the reflected `p2` on `line2` |
| `Axioms.Axiom6Folds` | Axioms.swift:116-134 | no more folds than roots, each the fold of some root |
| `Axioms.Axiom6Roots` | Axioms.swift:109-115 | the cubic of axiom 6 has at most three roots |
| `Axioms.Axiom6` | Axioms.swift:91-135 | the loop's folds are the specified folds of the cubic's roots, at most three, each passing every test of the loop and bringing `p1` onto `line1`; when the roots are exact roots of the cubic, each also brings `p2` onto `line2` |
| `Axioms.Axiom6PlacesP2` | Axioms.swift:93-128 | for an exact root of the cubic whose image of `p1` is not `p1`, the fold through the midpoint of `p1` and that image reflects `p2` onto `line2` |
| `Axioms.CubicFactored` | Axioms.swift:103-112 | the cubic at `t` equals `-z (t^2 + y1^2) + 2 ((x2 - t/2)(-t) + (y2 - y1/2) y1)(u2x t - u2y y1)`, the equation of the reflected `p2` on `line2` cleared of `|p1 - image|^2` |
| `Axioms.ReflectionAlong` | Axioms.swift:122-128 | reading the reflection in the line through `mid` with normal along `w` along a direction `g` gives `g . x - 2 (g . w)((x - mid) . w) / |w|^2` |
| `Axioms.FoldsPassTests` | Axioms.swift:117-133 | every fold that the loop keeps passes the paper, side and reflection tests, and brings `p2` onto `line2` when the roots are exact |
| `Axioms.MidpointFoldReflects` | Axioms.swift:122 | given a square root that squares back, the fold through the midpoint of `p` and `q`, with normal `p - q`, reflects `p` onto `q` |
| `Axioms.SolveCubic` | Axioms.swift:141-191 | never more than three roots; no root when `a`, `b` and `c` all vanish; one root solving `c x + d = 0` in the linear case; at most two roots, each solving the quadratic when the discriminant is at least epsilon, in the quadratic case |
| `Axioms.SolveLinear` | Axioms.swift:146-150 | exactly one root, and it solves `c x + d = 0` |
| `Axioms.SolveQuadratic` | Axioms.swift:152-159 | no root for a negative discriminant, one below epsilon, two otherwise; with a discriminant of at least epsilon both roots solve the equation |
| `Axioms.SolveReducedCubic` | Axioms.swift:161-190 | three roots for a negative discriminant; one or two (one when `r == 0`) for a discriminant below epsilon; otherwise one |
| `Axioms.LinearRoot` | Axioms.swift:150 | `-d/c` solves `c x + d = 0` exactly |
| `Axioms.QuadraticRoots` | Axioms.swift:156-159 | given a square root that squares back, both roots of the quadratic formula solve the equation |
| `Axioms.Axiom7` | Axioms.swift:195-207 | a fold lies in the paper, keeps the reflected `p` on the paper and is perpendicular to `line2`; when `line2`'s direction is not parallel to `line1` it puts the reflected `p` on `line1` |
| `Axioms.Axiom7Fold` | Axioms.swift:196-201 | the candidate fold is perpendicular to `line2`, and it reflects `p` onto `line1` whenever the divisor is non-zero |
| `Axioms.Axiom7ReflectsOnto` | Axioms.swift:199-201 | the fold distance of axiom 7 makes the reflection of `p` satisfy `line1`'s equation |
| `Finder.AxiomOrderIsPermutation` | CreasePatternAnalyzer/Models/ReferenceFinder.swift:13 | the axiom order has seven entries, holds exactly the axioms 1 to 7, and repeats none, so each enabled axiom runs once per rank |
| `Finder.LabelPoolsAreDisjoint` | CreasePatternAnalyzer/Models/ReferenceFinder.swift:18-19 | twelve distinct point labels and twelve distinct line labels, no label in both pools and neither containing `_`; popping from the end hands out `A`, `B`, … and `O`, `P`, … |
| `Finder.Inputs` | CreasePatternAnalyzer/References.swift:145-153 | a point cites its two lines, an edge cites nothing, and a folded line cites exactly its axiom's point and line inputs |
| `Finder.ReferenceFinder.constructor` | CreasePatternAnalyzer/Models/ReferenceFinder.swift:9-76 | the defaults: tolerance `1e-8`, rank 6, every axiom enabled, the unit square, 5000 buckets each way, the caps and error limits, zero counters, empty collections and no labels; the finder is valid |
| `Finder.ReferenceFinder.UseAxiom` | CreasePatternAnalyzer/Models/ReferenceFinder.swift:82-84 | axiom `a` is enabled exactly when entry `a - 1` of `useAxioms` is set |
| `Enumeration.PointPairs` | CreasePatternAnalyzer/utils.swift:133-171 | the A1 (or A2) candidates of a rank are exactly the point pairs from ranks `i` and `rank - 1 - i` for `0 <= i <= (rank - 1) / 2` |
| `Enumeration.LinePairs` | CreasePatternAnalyzer/utils.swift:173-190 | the A3 candidates are exactly the line pairs from ranks `i` and `rank - 1 - i` for `0 <= i <= (rank - 1) / 2` |
| `Enumeration.LinePointPairs` | CreasePatternAnalyzer/utils.swift:192-213 | the A4 candidates are exactly a line of rank `i` with a point of rank `rank - 1 - i` for `0 <= i <= (rank - 1) / 2` |
| `Enumeration.Axiom5Inputs` | CreasePatternAnalyzer/utils.swift:215-222 | the A5 candidates are exactly the triples with point ranks `i`, `k` and line rank `j`, `i + j + k == rank - 1`, `i != k` |
| `Enumeration.Axiom6Inputs` | CreasePatternAnalyzer/utils.swift:244-254 | the A6 candidates are exactly the quadruples whose point ranks sum to `sumP`, line ranks sum to at most `sumL`, with `sumP + sumL <= rank - 1` and the first point's rank at most half of `sumP`, as the five rank loops run |
| `Enumeration.Axiom7Inputs` | CreasePatternAnalyzer/utils.swift:280-286 | the A7 candidates are exactly a line of rank `i`, a point of rank `j` and a line of rank `rank - 1 - i - j`, with `i` different from the second line's rank |
| `Generation.SetInsertLine` | CreasePatternAnalyzer/utils.swift:336 | `Set.insert` on lines: afterwards the set holds the line's key; it is unchanged when the key was there, otherwise the line is appended; distinct keys stay distinct |
| `Generation.SetInsertPoint` | CreasePatternAnalyzer/utils.swift:347 | the same for points |
| `Generation.InsertUniqueLine` | CreasePatternAnalyzer/utils.swift:328-337 | the line is appended exactly when no lower rank and not `lines` itself holds an equal line; otherwise nothing changes |
| `Generation.InsertUniquePoint` | CreasePatternAnalyzer/utils.swift:339-348 | the point is appended exactly when no lower rank and not `points` holds an equal point and its key is not 0; otherwise nothing changes |
| `Generation.ConsumeAppends` | CreasePatternAnalyzer/utils.swift:133-305 | a generator only appends to `newLines`, and each line it appends was offered and is new to every lower rank |
| `Generation.ConsumeDistinct` | CreasePatternAnalyzer/utils.swift:328-337 | the keys in `newLines` stay pairwise distinct |
| `Generation.ConsumeCap` | CreasePatternAnalyzer/utils.swift:138-291 | with the cap checked before each offer, a generator stops at most one line beyond `maxNumLines` |
| `Generation.ConsumeComplete` | CreasePatternAnalyzer/utils.swift:133-305 | when a generator ends within the cap, every line it offered is in a lower rank or in `newLines` |
| `Generation.AxiomFolds` | Axioms.swift:9-207 | axioms 1, 2, 4 and 7 give at most one fold, 3 and 5 at most two, 6 at most three |
| `Generation.GeneratorEvents` | CreasePatternAnalyzer/utils.swift:133-305 | the lines generator `axiom` offers are exactly the folds of its candidates that pass the generator's own tests (not on the line, distinct inputs), each labelled with its axiom and rank |
| `Generation.GenerateAxiom` | CreasePatternAnalyzer/utils.swift:133-305 | the loop over the steps of `generateAxiomN` leaves `newLines` as the specified consumption of those steps |
| `Generation.GeneratedLines` | CreasePatternAnalyzer/utils.swift:133-337 | a generator only appends; what it appends are folds of its candidates, new to every lower rank and with distinct keys; it stops at most one line past the cap; and within the cap it leaves out no passing fold |
| `Generation.InputRanks` | CreasePatternAnalyzer/utils.swift:133-305 | every candidate of generator `axiom` is of that axiom and its input ranks add up to `rank - 1` (to at most `rank - 1` for axiom 6) |
| `Generation.Axiom6Ranks` | CreasePatternAnalyzer/utils.swift:244-254 | the ranks of an axiom 6 candidate add up to at most `rank - 1` |
| `Generation.Crossings` | CreasePatternAnalyzer/utils.swift:312-324 | the proposed points are exactly the crossings of a line of `lines1` with a line of `lines2` |
| `Generation.GetIntersections` | CreasePatternAnalyzer/utils.swift:308-326 | the nested loops insert every proposed crossing in loop order through `insert(uniquePoint:)` |
| `Generation.InsertedPointsFacts` | CreasePatternAnalyzer/utils.swift:318-348 | inserting points one by one only appends; what it appends was proposed, is new to every lower rank and has a non-zero key; keys stay distinct; every proposed point ends up in a lower rank, with key 0, or in the set |
| `Generation.UnionPointsSound` | CreasePatternAnalyzer/utils.swift:84-87 | `formUnion` keeps the old points first, adds only points of the other set, and keeps keys distinct |
| `Generation.UnionPointsComplete` | CreasePatternAnalyzer/utils.swift:84-87 | after `formUnion` every point of the other set has its key present |
| `Generation.NewPoints` | CreasePatternAnalyzer/utils.swift:82-88 | the loop over `i` in `0...rank/2` leaves the union of the intersections of ranks `i` and `rank - i` |
| `Generation.RankPointsSound` | CreasePatternAnalyzer/utils.swift:82-348 | the new points of a rank have distinct keys, and each is a crossing of lines whose ranks add up to `rank`, new to every lower rank, with a non-zero key |
| `Generation.RankPointsComplete` | CreasePatternAnalyzer/utils.swift:82-348 | every such crossing is in a lower rank, has key 0, or has its key among the new points |
| `Construction.NewLines` | CreasePatternAnalyzer/utils.swift:63-78 | the loop over the axiom order leaves the lines of every enabled generator, run in that order on the one set of new lines |
| `Construction.AxiomLoopSound` | CreasePatternAnalyzer/utils.swift:65-337 | the new lines of a rank have distinct keys, are folds of enabled generators' candidates, new to every lower rank and of this rank, and overrun the cap by at most one |
| `Construction.AxiomLoopComplete` | CreasePatternAnalyzer/utils.swift:65-305 | when the rank ends within the cap, every enabled generator's passing folds are in a lower rank or among the new lines |
| `Construction.UnionLinesSound` | CreasePatternAnalyzer/utils.swift:56 | forming the edges' set keeps keys distinct and adds only edges |
| `Construction.CountAsWrittenOvercounts` | CreasePatternAnalyzer/utils.swift:57-93 | the counters as written never undercount the stored references and overcount once rank 2 exists and rank 1 is not empty |
| `Construction.CountAsWrittenExample` | CreasePatternAnalyzer/utils.swift:86-93 | with 4 edges and ranks of 2 and 3 lines, 9 lines are stored and 11 counted |
| `Construction.GeneratorsSound` | CreasePatternAnalyzer/utils.swift:63-79 | the enabled generators produce, for any stock and rank, lines of that rank with distinct keys, new to every lower rank, at most one past the cap |
| `Construction.ConstructedStored` | CreasePatternAnalyzer/utils.swift:43-96 | the stored ranks keep every reference at its own rank, keys distinct within a set, no key twice across ranks, no crossing with key 0, and the lines at most one past the cap |
| `Construction.ConstructedKeepsFolds` | CreasePatternAnalyzer/utils.swift:65-79 | within the cap, every passing fold of every enabled generator at rank `n` is stored at rank `n` or below |
| `Construction.ConstructedKeepsCrossings` | CreasePatternAnalyzer/utils.swift:82-89 | every crossing with a non-zero key of lines whose ranks add up to `n` is stored at rank `n` or below |
| `Construction.RankLines` | CreasePatternAnalyzer/utils.swift:64-79 | rank `n`'s lines are what the generators make from the ranks below it |
| `Construction.RankPoints` | CreasePatternAnalyzer/utils.swift:81-89 | rank `n`'s points are the union of the crossings of ranks `i` and `n - i` for `i` up to `n / 2` |
| `Construction.ConstructedNext` | CreasePatternAnalyzer/utils.swift:61-95 | one more turn of the rank loop keeps the stored ranks constructed |
| `Construction.BuildRanks` | CreasePatternAnalyzer/utils.swift:54-95 | the rank loop stores `maxRank + 1` ranks, constructed from the corners and edges, and counts exactly the references stored (the corrected count, where the program over-counts; see "## Left out") |
| `Construction.MakeAllPointsAndLines` | CreasePatternAnalyzer/utils.swift:43-96 | the finder ends with `maxRank + 1` constructed ranks, exact counters (the corrected count; see "## Left out"), cleared instructions, diagrams, references and labels, and is still valid |
| `Construction.StoreRanks` | CreasePatternAnalyzer/utils.swift:44-52 | the finder's collections become the given ranks, the rest is cleared, and it stays valid |
| `Matching.PointsNear` | CreasePatternAnalyzer/utils.swift:350-362 | a point is matched exactly when it is stored and lies within `maxDistanceError` of the input |
| `Matching.LinesNear` | CreasePatternAnalyzer/utils.swift:364-378 | a line is matched exactly when it is stored and both its shift and its angle to the input are within their limits |
| `Matching.Record` | CreasePatternAnalyzer/utils.swift:356-372 | writing the errors adds exactly the matched keys to the map and leaves every other entry alone |
| `Matching.RecordLast` | CreasePatternAnalyzer/utils.swift:356-372 | a key written once last holds the last value written for it |
| `Matching.MatchedPoints` | CreasePatternAnalyzer/utils.swift:350-362 | the loops over every rank return the points near the input, in storage order, and record each one's distance error |
| `Matching.MatchedLines` | CreasePatternAnalyzer/utils.swift:364-378 | the loops over every rank return the lines near the input, in storage order, and record each one's shift and angle error |
| `Matching.PointsNearSnoc` | CreasePatternAnalyzer/utils.swift:353-358 | one more point visited adds it to the matches exactly when it is near |
| `Matching.LinesNearSnoc` | CreasePatternAnalyzer/utils.swift:367-374 | one more line visited adds it to the matches exactly when both errors are within their limits |
| Instructions.IndexOf | CreasePatternAnalyzer/utils.swift:19 | `index(of:)`: the first position whose element equals the one sought, or none when no element does |
| Instructions.RemoveFirstCount | CreasePatternAnalyzer/utils.swift:19-20 | removing the first equal element lowers that element's count by one when it occurs and leaves every other count alone |
| Instructions.RemovedAllCount | CreasePatternAnalyzer/utils.swift:17-23 | after `remove(elements:)` every element occurs as often as before minus its occurrences in `elements`, never below zero |
| Instructions.RemovedAllShrinks | CreasePatternAnalyzer/utils.swift:17-23 | `remove(elements:)` leaves a sub-multiset of the array |
| Instructions.RemoveElements | CreasePatternAnalyzer/utils.swift:17-23 | the loop over `elements` computes exactly the multiset difference described by `RemovedAllCount` |
| Instructions.PointSentenceEndsWithName | CreasePatternAnalyzer/utils.swift:450-451 | the sentence for an intersection ends with the new point's name and a full stop |
| Instructions.FoldSentenceEndsWithName | CreasePatternAnalyzer/utils.swift:484-485 | every fold sentence ends with the new line's name and a full stop; for A1 to A6 the sentence as written is this one |
| Instructions.A7SentenceAsWrittenHasNoStop | CreasePatternAnalyzer/utils.swift:743-744 | the A7 sentence as written contains no full stop at all when the labels have none, so it differs from the punctuated one by the missing "." |
| Instructions.Previous | CreasePatternAnalyzer/utils.swift:432-437 | the diagram a step starts from is the last one made, or an empty diagram before the first |
| Instructions.FoldAsCrease | CreasePatternAnalyzer/utils.swift:441-443 | the previous fold, when there is one, is the only crease it adds |
| Instructions.PointDiagram | CreasePatternAnalyzer/utils.swift:431-447 | an intersection step has no fold and no arrows, shows the two crossing lines and the new point, and keeps the previous creases plus the previous fold |
| Instructions.Folds | CreasePatternAnalyzer/utils.swift:763-767 | the lines carried over as creases are exactly the previous step's lines that are not paper edges |
| Instructions.CollectFolds | CreasePatternAnalyzer/utils.swift:763-767 | the loop over the previous lines keeps exactly the non-edge ones, in order |
| Instructions.FoldDiagram | CreasePatternAnalyzer/utils.swift:760-783 | a fold step's diagram folds the new line, shows the axiom's points and lines, and keeps as creases the earlier creases and folded lines minus the axiom's lines, plus the previous fold |
| Instructions.FoldCreasesComeFromBefore | CreasePatternAnalyzer/utils.swift:760-783 | every crease of a fold step was a crease or a shown line of the previous step, or its fold |
| Instructions.Pending | CreasePatternAnalyzer/utils.swift:420-425 | the entries pushed for a reference's inputs are not ready, cite only its inputs, and include every unlabelled input |
| Instructions.InputsAreShallow | CreasePatternAnalyzer/utils.swift:672-686 | a reference cites at most four others, each made at a smaller depth |
| Instructions.ExpandIsLighter | CreasePatternAnalyzer/utils.swift:418-426 | replacing an unready entry by its ready self and its pending inputs makes the stack strictly lighter, so the loop ends |
| Instructions.LastLabel | CreasePatternAnalyzer/utils.swift:429 | the label `popLast()` hands out is the single last letter of the pool |
| Instructions.PopLabel | CreasePatternAnalyzer/utils.swift:429 | a popped label is never the "_" of an unlabelled reference, and what is left of the pool is still a prefix of the full pool |
| Instructions.LabelPoint | CreasePatternAnalyzer/utils.swift:429 | labelling a point adds its key to the point labels and leaves the line labels alone |
| Instructions.LabelLine | CreasePatternAnalyzer/utils.swift:483 | labelling a line adds its key to the line labels and leaves the point labels alone |
| Instructions.LabelPointGrows | CreasePatternAnalyzer/utils.swift:429 | after labelling, the point carries the new name, no other label changes, and no label is lost |
| Instructions.LabelLineGrows | CreasePatternAnalyzer/utils.swift:483 | after labelling, the line carries the new name, no other label changes, and no label is lost |
| Instructions.StepCoheres | CreasePatternAnalyzer/utils.swift:449-451 | appending a diagram and its sentence keeps the two lists in step, and a fold diagram gets a sentence with a full stop |
| Instructions.ExplainPointStep | CreasePatternAnalyzer/utils.swift:428-452 | explaining an intersection whose lines are done labels the point, marks it done, and keeps labels, referenced sets, diagrams and sentences coherent |
| Instructions.ExplainLineStep | CreasePatternAnalyzer/utils.swift:760-786 | explaining a fold whose inputs are done labels the line, marks it done, and keeps labels, referenced sets, diagrams and sentences coherent |
| Instructions.SkipKeeps | CreasePatternAnalyzer/utils.swift:408-413 | skipping an already referenced point, a corner or an already referenced line keeps the loop invariant and shrinks the stack |
| Instructions.AfterPointKeeps | CreasePatternAnalyzer/utils.swift:428-452 | the ready-point branch keeps the loop invariant, only advances the state, and shrinks the stack |
| Instructions.AfterFoldKeeps | CreasePatternAnalyzer/utils.swift:760-786 | the ready-fold branch keeps the loop invariant, only advances the state, and shrinks the stack |
| Instructions.AfterNameKeeps | CreasePatternAnalyzer/utils.swift:467-470 | naming a seed line keeps the loop invariant, only advances the state, and shrinks the stack |
| Instructions.AfterExpandKeeps | CreasePatternAnalyzer/utils.swift:418-426 | pushing a reference back as ready with its unlabelled inputs above it keeps the loop invariant and makes the stack lighter |
| Instructions.StepReady | CreasePatternAnalyzer/utils.swift:399-786 | one turn on a ready entry fails, with the state unchanged, exactly when the pool its reference draws a label from is empty, where the program traps in `popLast()!`; otherwise a point takes the last point label with its intersection picture and sentence, a line the last line label with its fold picture and sentence, and the loop invariant holds with a lighter stack |
| Instructions.StepUnready | CreasePatternAnalyzer/utils.swift:408-482 | one turn on an unready entry pops a referenced point, a corner or a referenced line and changes nothing else; a line no axiom folded takes the last line label and fails, with the state unchanged, exactly when the line pool is empty; any other reference goes back ready under its unlabelled inputs; on success the loop invariant holds with a lighter stack |
| Instructions.Advance | CreasePatternAnalyzer/utils.swift:398-788 | one pass of the loop succeeds exactly when its entry needs no label from an empty pool, and then keeps the loop invariant, makes the stack lighter and extends the log by what it explained; a failed pass changes nothing |
| Instructions.LogsAppend | CreasePatternAnalyzer/utils.swift:449-451 | a step that adds one picture and one sentence showing a reference adds that reference to the log, and every earlier entry stays shown |
| Instructions.ShowsPoint | CreasePatternAnalyzer/utils.swift:428-452 | the picture of a point step shows just the new point, and its sentence ends with the point's new name and a full stop |
| Instructions.ShowsFold | CreasePatternAnalyzer/utils.swift:760-786 | the picture of a fold step folds the new line, and its sentence ends with the line's new name and a full stop |
| Instructions.LogsPoint | CreasePatternAnalyzer/utils.swift:428-452 | a point step adds the point, under the last label of the point pool, to the log |
| Instructions.LogsFold | CreasePatternAnalyzer/utils.swift:483-786 | a fold step adds the line, under the last label of the line pool, to the log |
| Instructions.LogsReady | CreasePatternAnalyzer/utils.swift:399-786 | explaining a ready entry adds to the log exactly its reference with the label it took, the last one of its pool |
| Instructions.BuildInstructions | CreasePatternAnalyzer/utils.swift:398-788 | the loop empties the stack, or fails exactly where the program traps, on an entry that needs a label from an empty pool; it only advances the state and keeps it coherent, on success leaves the reference labelled and explained, and writes one picture and one sentence per explained reference, in order, and nothing else |
| Instructions.MakeInstructions | CreasePatternAnalyzer/utils.swift:393-789 | `makeInstructions(for:)` keeps the finder valid, never loses a label, only extends the referenced sets, diagrams and sentences, and adds at most one sentence per label in the pools; it fails exactly when a step needs a label from an empty pool, succeeds with the reference explained, and each picture and sentence it adds shows one explained reference, in order |
| Instructions.UnlabelAll | CreasePatternAnalyzer/utils.swift:381-386 | the two loops set the label of every referenced point and line back to "_" |
| Instructions.UnlabelAt | CreasePatternAnalyzer/utils.swift:381-386 | a key of a listed reference ends up "_", every other key keeps its label or its absence |
| Instructions.ClearedLabels | CreasePatternAnalyzer/utils.swift:381-386 | after clearing, a referenced point or line reads "_" and every other keeps its label |
| Instructions.ClearInstructions | CreasePatternAnalyzer/utils.swift:380-391 | `clearInstructions()` unlabels the referenced points and lines, empties both referenced sets, the sentences and the diagrams, and keeps the finder valid |
| Coalescing.FirstStop | CreasePatternAnalyzer/utils.swift:126 | the position of the first full stop of a sentence: a '.' with none before it |
| Coalescing.InsertAfterStop | CreasePatternAnalyzer/utils.swift:127-130 | the inserted text sits right after the first full stop, with everything before and after it unchanged |
| Coalescing.InsertAfterStopInverse | CreasePatternAnalyzer/utils.swift:125-131 | cutting the inserted text back out gives the original sentence, and the first full stop stays where it was |
| Coalescing.FirstStopIsFirst | CreasePatternAnalyzer/utils.swift:126 | any '.' with no '.' before it is the one `index(of: ".")` finds |
| Coalescing.InsertInstruction | CreasePatternAnalyzer/utils.swift:125-131 | `insertInstruction(fromIndex:toIndex:)` changes only sentence `j`, into sentence `j` with " " and sentence `i` inserted after its first full stop |
| Coalescing.MergeTarget | CreasePatternAnalyzer/utils.swift:104-117 | the step an intersection is merged into is the latest earlier fold step whose fold is one of the two crossing lines, and none is found when no earlier step qualifies |
| Coalescing.FindTarget | CreasePatternAnalyzer/utils.swift:104-117 | the inner loop, with its `break`, finds exactly that step |
| Coalescing.RemoveAt | CreasePatternAnalyzer/utils.swift:113-114 | `remove(at:)` drops exactly element `i`, shifting the later ones down by one |
| Coalescing.CoalesceStep | CreasePatternAnalyzer/utils.swift:103-119 | one turn of the outer loop keeps diagrams and sentences in step and removes at most one step |
| Coalescing.MergeShaped | CreasePatternAnalyzer/utils.swift:109-114 | merging an intersection step into a fold step keeps diagrams and sentences in step; the fold's sentence has a full stop and the intersection diagram one point |
| Coalescing.CoalesceDown | CreasePatternAnalyzer/utils.swift:102-120 | the outer loop from `i` down to 1 keeps diagrams and sentences in step |
| Coalescing.CoalesceInstructions | CreasePatternAnalyzer/utils.swift:101-121 | `coalesceInstructions()` replaces the diagrams and sentences by their coalesced form and keeps the finder valid |
| Coalescing.FoldStepsAppend | CreasePatternAnalyzer/utils.swift:101-121 | the folds of a concatenation are the folds of its parts, in order |
| Coalescing.FoldStepsMerge | CreasePatternAnalyzer/utils.swift:109-114 | merging an intersection step away leaves the sequence of folds unchanged |
| Coalescing.CoalesceKeepsFolds | CreasePatternAnalyzer/utils.swift:102-120 | coalescing from any start leaves the sequence of folds unchanged |
| Coalescing.CoalesceKeepsLast | CreasePatternAnalyzer/utils.swift:102 | the outer loop starts at `count - 2`, so the last diagram and sentence are never merged away |
| Coalescing.CoalescedKeeps | CreasePatternAnalyzer/utils.swift:101-121 | coalescing keeps every fold in order and keeps the last diagram and sentence last |
| Pairs.Both | CreasePatternAnalyzer/utils.swift:800-803 | the pairs appended for two elements: `(x, y)`, followed by `(y, x)` only when `ordered` |
| Pairs.GetPairs | CreasePatternAnalyzer/utils.swift:794-809 | the nested loops of `getPairs(data:ordered:)` return every pair of an earlier and a later element, both ways round when `ordered` |
| Pairs.RowLength | CreasePatternAnalyzer/utils.swift:799-805 | the inner loop for one element adds one or two pairs per later element |
| Pairs.RowsUpToLength | CreasePatternAnalyzer/utils.swift:797-807 | after `i` turns of the outer loop there are `i * (2n - i - 1) / 2` pairs, doubled when `ordered` |
| Pairs.PairsCount | CreasePatternAnalyzer/utils.swift:794-809 | `getPairs` returns `n(n-1)/2` pairs, or `n(n-1)` when `ordered` |
| Pairs.RowMembers | CreasePatternAnalyzer/utils.swift:799-805 | a pair comes from the inner loop for `x` exactly when it joins `x` to a later element, or the reverse when `ordered` |
| Pairs.RowsUpToMembers | CreasePatternAnalyzer/utils.swift:797-807 | after `i` outer turns, a pair is present exactly when it joins one of the first `i` elements to a later one |
| Pairs.PairsMembers | CreasePatternAnalyzer/utils.swift:794-809 | a pair is in the result exactly when it joins two distinct positions, earlier first unless `ordered` |
| Lexer.ToNumber | CreasePatternAnalyzer/Parser.swift:135-150 | `toNumber` gives the value 0 to 9 of a decimal digit and nothing for any other character |
| Lexer.ToNumberOfDigit | CreasePatternAnalyzer/Parser.swift:135-150 | every value 0 to 9 is read back from its digit |
| Lexer.DigitRun | CreasePatternAnalyzer/Parser.swift:112-117 | the digit loop stops at the first non-digit or at the end |
| Lexer.NameRun | CreasePatternAnalyzer/Parser.swift:128-133 | a function name runs up to the first character that is not a letter, digit or `_` |
| Lexer.IntValueOfDigits | CreasePatternAnalyzer/Parser.swift:113 | appending a digit multiplies the value by ten and adds the digit |
| Lexer.FractionBounds | CreasePatternAnalyzer/Parser.swift:91-97 | digits after a point are worth at least 0 and less than 1 |
| Lexer.ParseInt | CreasePatternAnalyzer/Parser.swift:104-122 | `parseInt` fails and leaves the string alone unless it starts with a digit; otherwise it returns the value of the whole digit run and leaves what follows |
| Lexer.ParseDecimal | CreasePatternAnalyzer/Parser.swift:82-102 | `parseDecimal` returns the fraction the leading digits spell after a point (0 when there are none) and leaves what follows |
| Lexer.ScanExponent | CreasePatternAnalyzer/Parser.swift:58-79 | an accepted exponent consumes at least one character |
| Lexer.ParseExponent | CreasePatternAnalyzer/Parser.swift:58-79 | `parseExponent` reads an optional sign and digits; on failure it returns nothing and the string is unchanged, sign included |
| Lexer.ScaleIsProduct | CreasePatternAnalyzer/Parser.swift:50 | scaling by an exponent multiplies by the power of ten |
| Lexer.ScaleByExponent | CreasePatternAnalyzer/Parser.swift:43-55 | the optional exponent part never lengthens what is left |
| Lexer.Mantissa | CreasePatternAnalyzer/Parser.swift:12-42 | a mantissa is read exactly when the string starts with a digit, or with a point followed by a digit, and it consumes something |
| Lexer.ScanDouble | CreasePatternAnalyzer/Parser.swift:11-56 | a number is read exactly when the string starts with a digit, or with a point followed by a digit, and it consumes something |
| Lexer.ParseDouble | CreasePatternAnalyzer/Parser.swift:11-56 | `parseDouble` returns what the number grammar reads and leaves the rest; when nothing is read the string comes back unchanged |
| Lexer.ParseMantissa | CreasePatternAnalyzer/Parser.swift:12-42 | the first part of `parseDouble` reads exactly the mantissa and, on failure, puts back what it took |
| Lexer.ParsePointFraction | CreasePatternAnalyzer/Parser.swift:34-37 | after an integer part, a point and its digits are added as a fraction; anything else is put back |
| Lexer.ParseExponentPart | CreasePatternAnalyzer/Parser.swift:43-55 | `e` or `E` with a valid exponent scales the mantissa; an invalid exponent puts the letter back and keeps the mantissa |
| Lexer.ScanDoubleIsNonNegative | CreasePatternAnalyzer/Parser.swift:11-56 | every number read is at least 0 |
| Lexer.ScanInteger | CreasePatternAnalyzer/Parser.swift:28-34 | a run of digits followed by no point, digit or exponent letter reads as its integer value |
| Lexer.ReadFunctionName | CreasePatternAnalyzer/Parser.swift:371-383 | the name read is the longest prefix of letters, digits and `_`, and the rest is what follows it |
| Parsing.OperatorOf | CreasePatternAnalyzer/Parser.swift:291-292 | each operator character stands for the operator spelled by that one character |
| Parsing.PrecedenceOrder | CreasePatternAnalyzer/Parser.swift:389-404 | `^` binds tighter than `*` and `/`, which bind tighter than unary minus, then `+` and `-`, then `(`; any function name binds tighter than every known operator |
| Parsing.ApplyToShape | CreasePatternAnalyzer/Parser.swift:209-270 | `apply` fails with `InvalidOperation` on an unknown name and with `NotEnoughOperands` on a short stack; otherwise it replaces its one or two operands by a single result and leaves the rest of the stack alone |
| Parsing.ReduceForStops | CreasePatternAnalyzer/Parser.swift:299-310 | the corrected reduction only pops from the top and stops at an operator that does not yield to the incoming one |
| Parsing.PushOntoTop | CreasePatternAnalyzer/Parser.swift:295-311 | a pushed operator ends on top; as written, an operator of precedence at least that of the top is pushed on, and otherwise exactly one operator is applied and replaced |
| Parsing.CloseParenFindsOpen | CreasePatternAnalyzer/Parser.swift:322-330 | `)` applies the operators above the last `(` and drops it; without any `(` it fails, and `UnbalancedParenthesis` means there was none |
| Parsing.DrainShape | CreasePatternAnalyzer/Parser.swift:357-367 | the final drain succeeds only when no `(` is left, and with no operators left the result is empty exactly when there are no operands |
| Parsing.ReadNumber | CreasePatternAnalyzer/Parser.swift:280-287 | a number read from the input consumes at least one character |
| Parsing.ReadName | CreasePatternAnalyzer/Parser.swift:333-352 | a name read from the input consumes at least one character |
| Parsing.Step | CreasePatternAnalyzer/Parser.swift:276-355 | every successful pass of the main loop consumes at least one character |
| Parsing.Report | CreasePatternAnalyzer/Parser.swift:170-204 | `parsedString(from:)` succeeds exactly when parsing gave a value, returns that value, and returns 0 with every failure |
| Parsing.Parser.constructor | CreasePatternAnalyzer/Parser.swift:162-168 | a new parser has empty stacks and treats a leading `-` as unary minus |
| Parsing.Parser.Apply | CreasePatternAnalyzer/Parser.swift:209-270 | `apply` on the operand field fails exactly as `ApplyTo` does and otherwise leaves `ApplyTo`'s stack |
| Parsing.Parser.PushOperator | CreasePatternAnalyzer/Parser.swift:291-312 | the operator branch on the fields does what `PushOnto` with the source's rule computes, then sets the unary-minus flag |
| Parsing.Parser.CloseParenthesis | CreasePatternAnalyzer/Parser.swift:322-330 | the `)` branch on the fields does what `CloseParen` computes and clears the flag |
| Parsing.Parser.Advance | CreasePatternAnalyzer/Parser.swift:276-355 | one pass of the loop on the fields does what `Step` computes |
| Parsing.Parser.AdvanceNumber | CreasePatternAnalyzer/Parser.swift:280-287 | the number branch on the fields does what `ReadNumber` computes |
| Parsing.Parser.AdvanceName | CreasePatternAnalyzer/Parser.swift:333-352 | the name branch on the fields does what `ReadName` computes |
| Parsing.Parser.Clear | CreasePatternAnalyzer/Parser.swift:356-367 | the closing loop on the fields returns what `Drain` computes |
| Parsing.Parser.Parse | CreasePatternAnalyzer/Parser.swift:272-368 | `parse(string:)` rejects the empty string and otherwise returns what the main loop and the drain compute from the parser's state |
| Parsing.ParsedString | CreasePatternAnalyzer/Parser.swift:170-204 | `parsedString(from:)` on a fresh parser reports the evaluation of the string |
| Parsing.SpacesChangeNothing | CreasePatternAnalyzer/Parser.swift:318-319 | spaces are skipped without touching either stack |
| Parsing.BlankExpression | CreasePatternAnalyzer/Parser.swift:273 | the empty string is `EmptyExpression`; a string of spaces parses to no value and is reported as "Empty string" |
| Parsing.LoneCloseParenthesis | CreasePatternAnalyzer/Parser.swift:324-326 | a `)` at the start is `UnbalancedParenthesis` |
| Parsing.DigitsStep | CreasePatternAnalyzer/Parser.swift:280-287 | a digit run followed by no more of a number pushes its integer value and clears the unary-minus flag |
| Parsing.NumberAlone | CreasePatternAnalyzer/Parser.swift:272-368 | a string of digits evaluates to its integer value |
| Parsing.NegatedNumber | CreasePatternAnalyzer/Parser.swift:294 | a leading `-` before digits is unary minus: the value is the negated integer |
| Parsing.LeadingMinus | CreasePatternAnalyzer/Parser.swift:294-296 | a leading `-` pushes unary minus on the empty operator stack |
| Parsing.ChainGroupsRight | CreasePatternAnalyzer/Parser.swift:299-303 | as written, `a op b op c` with one operator twice groups to the right, as `a op (b op c)` |
| Parsing.ChainGroupsLeft | CreasePatternAnalyzer/Parser.swift:299-310 | with the corrected rule, the same chain groups to the left for every operator but `^` |
| Parsing.EqualPrecedenceExamples | CreasePatternAnalyzer/Parser.swift:299-303 | "1-2-3" is 2 and "8/4/2" is 4 as written, and -4 and 1 with the corrected rule |
| Parsing.OnePopReduction | CreasePatternAnalyzer/Parser.swift:304-309 | as written, `a*b*c+d` is computed as `a*(b*c+d)` because the `+` pops only one `*` |
| Parsing.FullReduction | CreasePatternAnalyzer/Parser.swift:304-309 | with the corrected rule, `a*b*c+d` is `(a*b)*c+d` |
| Parsing.ReductionExamples | CreasePatternAnalyzer/Parser.swift:304-309 | "2*3*4+1" is 26 as written and 25 with the corrected rule |
| Parsing.UnknownCharacterStalls | CreasePatternAnalyzer/Parser.swift:333-352 | as written, a character that starts no number, operator or name is read as an empty function name and left in place, so the loop makes no progress |
| Parsing.UnknownCharacterRejected | CreasePatternAnalyzer/Parser.swift:333-352 | in the model such a character is rejected with `InvalidOperation` |
| TreeShape.Keys | Tree.swift:16-32 | the in-order data of a shape has one entry per node |
| TreeShape.DistinctCard | Tree.swift:6-8 | distinct node indices are as many as the set they form |
| TreeShape.Covers | Tree.swift:6-8 | `n` distinct nodes below `n` are all the nodes 0 to `n - 1` |
| TreeShape.Pointed | Tree.swift:239-243 | the pointer fields of a tree point only at existing nodes or `nil`, and every node is in the tree |
| TreeShape.PathFound | Tree.swift:64-67 | when the search meets a node holding `x`, insertion adds nothing and `x` is already in the tree |
| TreeShape.PathMissing | Tree.swift:42-63 | when the search for `x` reaches an empty child, `x` is not in the tree |
| TreeShape.AttachLinked | Tree.swift:46-62 | hanging the new node below the last node of the search gives the pointer fields of the inserted shape |
| TreeShape.InsertIds | Tree.swift:47-58 | insertion of a missing value adds exactly the new node |
| TreeShape.InsertKeys | Tree.swift:35-70 | binary-search insertion keeps the data in increasing order and adds `x` once, or changes nothing when `x` is present |
| TreeShape.InsertTree | Tree.swift:35-70 | attaching the new node where the search ends gives a well-linked tree whose data is still increasing and gained exactly `x` |
| TreeShape.ParentDepth | Tree.swift:242 | a node's parent is in the tree and one level higher, so climbing parents ends at the root |
| TreeShape.SameOrder | Tree.swift:16-32 | two shapes with the same nodes in order hold the same data in order |
| TreeRotation.TreeBounded | Tree.swift:239-243 | in a tree every pointer is `nil` or a node, and only the root has no parent |
| TreeRotation.LeftRotatedFields | Tree.swift:143-163 | `leftRotate` changes exactly the links of the node, its right child, that child's left child and the parent, as stated field by field |
| TreeRotation.RightRotatedFields | Tree.swift:165-185 | the corrected `rightRotate` changes exactly the mirror-image links |
| TreeRotation.RotateLeftLinked | Tree.swift:143-163 | `leftRotate` at any node of a linked tree gives the pointer fields of the rotated shape |
| TreeRotation.RotateRightLinked | Tree.swift:165-185 | the corrected `rightRotate` at any node gives the pointer fields of the rotated shape |
| TreeRotation.RotateLeftTree | Tree.swift:143-163 | a left rotation keeps a tree a tree, with the same nodes in the same order |
| TreeRotation.RotateRightTree | Tree.swift:165-185 | the corrected right rotation keeps a tree a tree, with the same nodes in the same order |
| TreeRotation.RightRotateAsWrittenBreaks | Tree.swift:169-171 | on a three-node left chain, `rightRotate` as written sets the parent of the wrong node, leaving a node whose parent does not point back at it |
| TreeColoring.AttachFree | Tree.swift:249-252 | a new red leaf below a tree without red-red pairs is the only node that may break the rule |
| TreeColoring.RecolourColours | Tree.swift:86-94 | case 1 (red uncle) recolours parent, uncle and grandparent and moves the only possible violation up to the grandparent |
| TreeColoring.ZigLeft | Tree.swift:98-104 | case 2 (node a right child) rotates the parent left and leaves the old parent as the node that may break the rule, now a left child |
| TreeColoring.ZigRight | Tree.swift:120-125 | the mirror case 2 rotates the parent right, leaving the old parent as a right child |
| TreeColoring.ZagLeftColours | Tree.swift:106-108 | case 3 recolours and rotates the grandparent right, after which no red node has a red parent |
| TreeColoring.ZagRightColours | Tree.swift:126-128 | the mirror case 3 recolours and rotates the grandparent left, after which no red node has a red parent |
| TreeColoring.Settle | Tree.swift:78-133 | when the loop stops (node at the root, black parent or no grandparent), blackening the root leaves no red-red pair |
| TreeColoring.Climb | Tree.swift:78-85 | a node with a grandparent hangs below its parent, which hangs below the grandparent, two levels up |
| TreeTraversal.Leftmost | Tree.swift:204-206 | following `left` links from a node reaches the first node of its subtree in order |
| TreeTraversal.First | Tree.swift:199-207 | the generator starts at the first node in order, or `nil` for an empty tree |
| TreeTraversal.Successor | Tree.swift:214-235 | the step of `next()` moves from the node at place `i` in order to the node at place `i + 1`, or `nil` after the last |
| TreeTraversal.DownRight | Tree.swift:215-220 | with a right subtree, the next node in order is the first node of that subtree |
| TreeTraversal.UpFromLeft | Tree.swift:229-231 | arriving at a parent from its left child, the parent is the next node in order |
| TreeTraversal.UpFromRight | Tree.swift:233 | arriving at a parent from its right child, the parent's subtree ends where the child's does, so the walk goes on up |
| TreeTraversal.AtRoot | Tree.swift:225-227 | reaching the root while climbing means the node was the last in order |
| TreeTraversal.Next | Tree.swift:210-236 | `next()` returns the data at the current place in order and moves to the next place, and returns `nil` once every node was visited |
| TreeTraversal.InOrder | Tree.swift:16-32 | `toArray()`'s explicit-stack walk lists the data in order |
| TreeTraversal.Drain | Tree.swift:188-236 | running the generator to its end yields the same data in order |
| RedBlackTree.TreeInsertInto | Tree.swift:35-70 | `treeInsert` returns a node holding `x`; a new value becomes a new red node hung where the search ended and the size grows by one; a present value changes nothing |
| RedBlackTree.Repair | Tree.swift:78-133 | the fix-up loop keeps the shape's nodes and data in order, ends with a black root, and removes the one red-red pair the new node may have caused |
| RedBlackTree.RepairLeft | Tree.swift:85-110 | one pass with the parent a left child keeps a tree with the same nodes and makes the loop measure smaller |
| RedBlackTree.RepairRight | Tree.swift:111-130 | one pass with the parent a right child keeps a tree with the same nodes and makes the loop measure smaller |
| RedBlackTree.InsertInto | Tree.swift:73-134 | insertion with the duplicate check and the corrected `rightRotate` keeps the tree sound and red-black, adds `x` once to the data and changes nothing when `x` is present |
| RedBlackTree.InsertAsWrittenInto | Tree.swift:73-134 | `insert` as written: `treeInsert` adds `x` once as a new red node where the search ends, or hands back the node already holding it and changes nothing; the repair, with the program's `rightRotate`, then runs from that node even for a duplicate, round by round as `TreeAsWritten.Repaired` says, and a finished run ends with a black root |
| RedBlackTree.InsertAllInto | Tree.swift:137-141 | inserting a collection with `InsertInto` keeps the tree sound and red-black and adds exactly the collection's values |
| RedBlackTree.GainsOne | Tree.swift:73-75 | gaining `x` once, or not at all when present, adds `x` to the set of values |
| RedBlackTree.DistinctCount | Tree.swift:8 | increasing data holds as many values as entries, so `size` counts distinct values |
| RedBlackTree.DuplicateRepairBreaks | Tree.swift:64-134 | inserting 4 into the six-node tree of `DuplicateSound`, which holds 4 already, runs three rounds of the repair as written from the existing node; it ends with no red node under a red one, but with node 1 below node 4 while its parent link names node 0, and with one path down holding three black nodes and another two |
| RedBlackTree.ThreeTwoOneAsWritten | Tree.swift:73-236 | inserting 3, 2 and 1 as written: the third insertion's case 3 uses the program's `rightRotate`, the tree ends with the node of 1 pointing at the wrong parent, and `toArray()` lists 1, 2, 3 while the generator yields only 1 |
| RedBlackTree.Tree.constructor | Tree.swift:10-13 | a new tree is empty, sound and red-black, with size 0 |
| RedBlackTree.Tree.TreeInsert | Tree.swift:35-70 | `treeInsert` on the fields: as `TreeInsertInto`, with the old fields for a present value |
| RedBlackTree.Tree.Insert | Tree.swift:73-134 | `insert` on the fields keeps the tree valid and red-black and adds `x` to its values |
| RedBlackTree.Tree.InsertAll | Tree.swift:137-141 | `insert(items:)` with the corrected insertion keeps the tree valid and red-black, adds exactly the items' values, and `size` counts the values |
| RedBlackTree.Tree.ToArray | Tree.swift:16-32 | `toArray()` returns the data in increasing order, `size` entries |
| RedBlackTree.Tree.Generate | Tree.swift:188-192 | `generate()` returns a new generator that will yield the data in order |
| RedBlackTree.Tree.InsertAsWritten | Tree.swift:73-134 | `insert` as written on the fields: when the repair finishes, the data gained `x` once if it was new, the links and colours are the run's, bounded, with a black root; for a duplicate the run is the repair from the node already holding `x`; a trapped or unfinished run leaves the tree unchanged |
| RedBlackTree.Tree.LeftRotate | Tree.swift:143-163 | `leftRotate` on the fields sets the links of the left-rotated tree and changes neither data, colours nor size |
| RedBlackTree.Tree.RightRotate | Tree.swift:165-185 | the corrected `rightRotate` on the fields sets the links of the right-rotated tree and changes neither data, colours nor size |
| RedBlackTree.Tree.RightRotateAsWritten | Tree.swift:165-185 | `rightRotate` as written sets the links that `RightRotateAsWrittenBreaks` shows to be broken |
| TreeAsWritten.LeftRotatedBounded | Tree.swift:143-163 | `leftRotate` at a node with a right child leaves every pointer a node or `nil` |
| TreeAsWritten.RightRotatedAsWrittenBounded | Tree.swift:165-185 | `rightRotate` as written, at a node with a left child, leaves every pointer a node or `nil`, though not always the right one |
| TreeAsWritten.ZagLeft | Tree.swift:106-108 | case 3 on the left recolours and rotates the grandparent right as written, and traps exactly when the grandparent has no left child |
| TreeAsWritten.ZagRight | Tree.swift:126-128 | case 3 on the right recolours and rotates the grandparent left, and traps exactly when the grandparent has no right child |
| TreeAsWritten.Reread | Tree.swift:99-104 | after the case 2 rotation the node, its parent and grandparent are read from the links as they are; a missing one traps, and the round never ends the loop |
| TreeAsWritten.RoundFrom | Tree.swift:78-131 | one round of the loop as written ends it, changing nothing, exactly when the node is the root or its parent is not red or has no parent; otherwise it goes on with bounded links from a node of the tree, or traps |
| TreeAsWritten.Repaired | Tree.swift:78-133 | the loop and the final blackening of the root: a finished run has bounded links and a black root, and no rounds give no result |
| TreeAsWritten.Finished | Tree.swift:132-133 | a run ends with a tree exactly when the last round ended the loop and there is a root to paint black |
| TreeAsWritten.RepairedRound | Tree.swift:78-133 | a run is its first round followed by the run from where that round leaves off |
| TreeAsWritten.Repair | Tree.swift:78-133 | the loop, round by round, computes exactly `Repaired` |
| TreeAsWritten.LeftmostFrom | Tree.swift:204-219 | following `left` links ends at a node with no left child, or at `nil` exactly when it started there |
| TreeAsWritten.ClimbFrom | Tree.swift:224-234 | the climb of `next()` ends at a node or `nil` |
| TreeAsWritten.NextFrom | Tree.swift:214-235 | the step of `next()` on the links as they are ends at a node or `nil` |
| TreeAsWritten.YieldsFrom | Tree.swift:210-236 | the generator from a node yields that node's data first, only data of the tree, and at most one value per step of `fuel` |
| TreeAsWritten.Generated | Tree.swift:188-236 | a fresh generator on a non-empty tree yields at least one value, and only data of the tree |
| RedBlackTree.TreeGenerator.constructor | Tree.swift:199-207 | a new generator stands before the first node in order, with all the data still to come |
| RedBlackTree.TreeGenerator.Next | Tree.swift:210-236 | `next()` returns the first value still to come and drops it, or `nil` when none is left |
| Grids.Int | CreasePatternAnalyzer/Utilities/utils-image.swift:6-10 | `Bool.int` is 1 for true and 0 for false |
| Grids.RowCount | CreasePatternAnalyzer/Utilities/utils-image.swift:499-507 | the true pixels of part of a column number at most its length |
| Grids.BoxCountBound | CreasePatternAnalyzer/Utilities/utils-image.swift:499-507 | a rectangle of pixels holds at most its area in true pixels |
| Grids.CountShrinks | CreasePatternAnalyzer/Utilities/utils-image.swift:116-134 | an image inside another has at most as many true pixels, and strictly fewer when they differ |
| Thinning.Ring | CreasePatternAnalyzer/Utilities/utils-image.swift:82-89 | the neighbours `p2` to `p9` of an inner pixel are eight values |
| Thinning.Neighbours | CreasePatternAnalyzer/Utilities/utils-image.swift:94-95 | `n` lies between 0 and 8; it is 0 exactly when no neighbour is set and 8 exactly when all are |
| Thinning.Transitions | CreasePatternAnalyzer/Utilities/utils-image.swift:90-93 | `s` lies between 0 and 4, and is 0 when the ring is all set or all clear |
| Thinning.PassPixel | CreasePatternAnalyzer/Utilities/utils-image.swift:79-112 | a sub-iteration clears exactly the set inner pixels its test accepts, keeps every other pixel and the whole border, and only clears pixels with one transition and two to six neighbours |
| Thinning.PassWithin | CreasePatternAnalyzer/Utilities/utils-image.swift:106-112 | a sub-iteration only turns set pixels clear |
| Thinning.PassKeepsEnds | CreasePatternAnalyzer/Utilities/utils-image.swift:96-97 | end points, isolated pixels and pixels with seven or eight neighbours survive every sub-iteration |
| Thinning.ErodeShrinks | CreasePatternAnalyzer/Utilities/utils-image.swift:73-114 | `erode` only clears pixels, never touches the border, and lowers the count of set pixels unless it changes nothing |
| Thinning.Thinned | CreasePatternAnalyzer/Utilities/utils-image.swift:116-134 | `thin` ends: each repeat that changes the image lowers the count of set pixels |
| Thinning.ThinnedFixed | CreasePatternAnalyzer/Utilities/utils-image.swift:116-134 | `thin` ends in an image `erode` leaves unchanged, inside the original, with the border unchanged |
| BinaryImages.Blank | CreasePatternAnalyzer/Utilities/utils-image.swift:75-78 | the `shouldRemove` grid starts `width` by `height` and all clear |
| BinaryImages.MarkPass | CreasePatternAnalyzer/Utilities/utils-image.swift:75-105 | the marking loops of sub-iteration `k` compute exactly the pixels its test accepts |
| BinaryImages.ClearMarked | CreasePatternAnalyzer/Utilities/utils-image.swift:106-112 | the clearing loops clear exactly the marked pixels in columns 1 to `width - 2` and rows 0 to `height - 2` |
| BinaryImages.ErodeGrid | CreasePatternAnalyzer/Utilities/utils-image.swift:73-114 | the two sub-iterations compute the eroded image |
| BinaryImages.Differs | CreasePatternAnalyzer/Utilities/utils-image.swift:122-130 | the comparison loop with its labelled break reports a change exactly when the images differ |
| BinaryImages.Unchanged | CreasePatternAnalyzer/Utilities/utils-image.swift:139-153 | the sweep has not yet changed the neighbours of a pixel it is about to test, so the in-place test agrees with the test on the original |
| BinaryImages.DenoiseGrid | CreasePatternAnalyzer/Utilities/utils-image.swift:138-154 | the sweep's loops compute the denoised image for the given margin |
| BinaryImages.DenoisedStable | CreasePatternAnalyzer/Utilities/utils-image.swift:138-154 | removing noise twice is the same as once |
| BinaryImages.RemoveNoiseAsWrittenMisses | CreasePatternAnalyzer/Utilities/utils-image.swift:139-140 | in a 3 by 3 image with only the centre set, the loops as written test no pixel and the lone centre pixel stays; with the full range it is removed |
| BinaryImages.BinaryImage.constructor | CreasePatternAnalyzer/Utilities/utils-image.swift:17-24 | a binary image holds the given pixels, width and height |
| BinaryImages.BinaryImage.Erode | CreasePatternAnalyzer/Utilities/utils-image.swift:73-114 | `erode()` replaces the pixels by the eroded image |
| BinaryImages.BinaryImage.Thin | CreasePatternAnalyzer/Utilities/utils-image.swift:116-134 | `thin()` replaces the pixels by the thinned image, which `erode` leaves unchanged and which lies inside the old one |
| BinaryImages.BinaryImage.RemoveNoise | CreasePatternAnalyzer/Utilities/utils-image.swift:138-154 | `removeNoise()` over every inner pixel clears the set pixels with no set neighbour, as the sweep reaches them |
| BinaryImages.BinaryImage.RemoveNoiseAsWritten | CreasePatternAnalyzer/Utilities/utils-image.swift:138-154 | `removeNoise()` as written sweeps only columns 1 to `width - 3` and rows 1 to `height - 3` |
| Otsu.StopFrom | CreasePatternAnalyzer/Utilities/utils-image.swift:310-313 | the bin where the scan breaks off lies between its start and the end of the histogram |
| Otsu.StopFirst | CreasePatternAnalyzer/Utilities/utils-image.swift:305-313 | the scan breaks at the first bin where the foreground weight becomes 0, and at none before it |
| Otsu.Score | CreasePatternAnalyzer/Utilities/utils-image.swift:314-319 | the between-class variance a bin offers is never negative, and 0 for a bin with no background weight |
| Otsu.Threshold | CreasePatternAnalyzer/Utilities/utils-image.swift:295-327 | `otsu` returns a bin before the break whose variance no earlier bin matches and no bin before the break exceeds, or 0 when the scan breaks at once |
| Windows.SumFront | CreasePatternAnalyzer/Utilities/utils-image.swift:352-354 | a window sum is its first element plus the rest |
| Windows.Slide | CreasePatternAnalyzer/Utilities/utils-image.swift:355-359 | moving a window by one adds the entering element and subtracts the leaving one |
| Windows.Column | CreasePatternAnalyzer/Utilities/utils-image.swift:351-360 | the column `j` of the accumulator, top to bottom |
| Windows.Strips | CreasePatternAnalyzer/Utilities/utils-image.swift:347-350 | `sumH` has `thetasCount - 2r` rows and `rhosCount` columns |
| Windows.Boxes | CreasePatternAnalyzer/Utilities/utils-image.swift:363-366 | `sumV` has `thetasCount - 2r` rows and `rhosCount - 2r` columns |
| Windows.FillColumn | CreasePatternAnalyzer/Utilities/utils-image.swift:352-359 | the two loops for column `j` leave in every row the sum of the `2r + 1` accumulator values below it, and touch no other column |
| Windows.SumStrips | CreasePatternAnalyzer/Utilities/utils-image.swift:347-360 | the first double loop computes the vertical window sums |
| Windows.SumBoxes | CreasePatternAnalyzer/Utilities/utils-image.swift:363-376 | the second double loop computes, for each row, the sums of `2r + 1` consecutive `sumH` values |
| Windows.FindMax | CreasePatternAnalyzer/Utilities/utils-image.swift:379-390 | the search returns the first position, in row order, of the largest window sum, where a sum below 0 never beats the starting -1; when no sum is above -1 it returns the starting `(0, 0)` |
| Windows.MaxIndex | CreasePatternAnalyzer/Utilities/utils-image.swift:339-393 | `maxIndex` returns the centre of a window whose sum is the first largest, with the centre at least `radius` from every edge; when no window sum is above -1 it returns `(radius, radius)`; for a non-negative accumulator it is a true maximum |
| Windows.BoxesNonNegative | CreasePatternAnalyzer/Utilities/utils-image.swift:363-376 | window sums of a non-negative accumulator are non-negative |
| Neighbourhood.NeighboringPixelsValue | CreasePatternAnalyzer/Utilities/utils-image.swift:491-509 | the count of set pixels in the window around `(x, y)` clipped to the image, 0 for a point outside, and at most `(2r + 1)^2` |
| Neighbourhood.WindowBound | CreasePatternAnalyzer/Utilities/utils-image.swift:499-507 | the clipped window holds at most `(2r + 1)^2` set pixels |
| Neighbourhood.NeighboursAround | CreasePatternAnalyzer/Utilities/utils-image.swift:489-509 | for an inner pixel and radius 1, the count is the pixel itself plus the `n` of the thinning test |
| MinIndex.FirstMinimumUnique | CreasePatternAnalyzer/Extensions/Array+minIndex.swift:12-25 | an array has exactly one first position of its smallest element |
| MinIndex.MinIndexAsWritten | CreasePatternAnalyzer/Extensions/Array+minIndex.swift:12-25 | `minIndex()` as written returns `nil` exactly for an empty array, and otherwise the first smallest position among all elements but the last |
| MinIndex.MinIndexAsWrittenMissesLast | CreasePatternAnalyzer/Extensions/Array+minIndex.swift:18-23 | for `[2, 1]` it answers 0 although the smallest element is at 1 |
| MinIndex.MinIndex | CreasePatternAnalyzer/Extensions/Array+minIndex.swift:12-25 | with the loop over every element, `minIndex()` returns `nil` exactly for an empty array, and otherwise the first position of the smallest element |

## Left out

- Swift `Int` overflow: integers are unbounded. Counters, hash keys and Otsu's products never wrap or trap in the model.
- `Double` arithmetic is modelled as exact `real`: rounding, NaN and infinities are not modelled. A zero divisor gives 0.0 (`Libm.Div`), and no property relies on that value.
- `sqrt`, `cbrt`, `sin`, `cos`, `tan`, `acos`, `atan2`, `pow`, `log` and `log10` come from Darwin's math library. They are function-valued fields of the `Libm` record that callers pass in. The only law assumed is that the square root of a non-negative number is non-negative and squares back (`SqrtLaw`).
- `String(describing:)` and the `Float` formatting of coordinates inside sentences are not modelled. The text of a parsed number is the parameter `format`.
- Drawing of diagrams (arrow shapes, bounds, `NSRect`, line segments): not modelled. The arrows of a fold step are the parameter `arrowsOf` of `Instructions.MakeInstructions`.
- The constructor `PointReference(_ point:)` with no defining lines is used only by the drawing code, so it is not modelled. `HashableReference` is not modelled either.
- `isNotCorner()` and `isNotEdge()` become "is not a rank-0 seed". This is a flag on corners and a missing axiom on edges.
- Swift `Set` of references: modelled as a sequence with unique bucket keys, in insertion order. Swift's iteration order is unspecified, so every property is stated independently of that order.
- The initial errors are `DBL_MAX` before any match. They are modelled as the absence of an entry in the error maps, so any real error beats them.
- Class methods of the reference finder, the parser and the tree compute on values and then store the fields. Aliasing between objects is not modelled: every object is reached through one reference.
- The tree stores `Int` keys. Swift's generic `Comparable` element type is not modelled. Node identity is the node's index in the node arrays; Swift's `==` on nodes compares the data.
- RedBlackTree.Tree.Insert: uses the corrected `rightRotate` (Tree.swift:169-171) and inserts a duplicate without running the repair (Tree.swift:64-67). It proves the search-tree order, the contents and the colour rules (the root is black and no red node has a red child). It does not prove equal black heights on every path. What the program does instead is `RedBlackTree.Tree.InsertAsWritten`.
- RedBlackTree.Tree.InsertAll: built on `RedBlackTree.Tree.Insert`, so with the corrected `rightRotate` and no repair after a duplicate; the program's `insert(items:)` can break the tree as `RedBlackTree.ThreeTwoOneAsWritten` shows.
- RedBlackTree.InsertInto: the corrected insertion, for the same reasons as `RedBlackTree.Tree.Insert`.
- RedBlackTree.InsertAllInto: inserts with `RedBlackTree.InsertInto`, so with the corrected insertion.
- RedBlackTree.Repair: the fix-up loop with the corrected `rightRotate`; the loop as written is `TreeAsWritten.Repair`.
- RedBlackTree.RepairLeft: with the corrected `rightRotate` in case 3; as written see `TreeAsWritten.ZagLeft`.
- RedBlackTree.RepairRight: with the corrected `rightRotate` in case 2; as written see `TreeAsWritten.RoundFrom`.
- TreeColoring.ZigRight: rotates with the corrected `rightRotate`.
- TreeColoring.ZagLeftColours: rotates with the corrected `rightRotate`.
- RedBlackTree.TreeGenerator.Next: proved on well-linked trees, which the corrected insertion keeps; on the links the program's insertion can leave, `TreeAsWritten.YieldsFrom` reads them as they are.
- RedBlackTree.InsertAsWrittenInto: the repair runs for at most `fuel` rounds; that it always finishes is not proved.
- RedBlackTree.Tree.InsertAsWritten: the repair runs for at most `fuel` rounds, and a run that traps (where the program crashes on a `nil`) or does not finish within them leaves the tree unchanged.
- TreeAsWritten.Generated: the walk runs for at most `fuel` steps; `None` means they did not suffice.
- Construction.BuildRanks: the counters count each stored reference once. The program adds its running per-call totals to `numPoints`/`numLines` after every rank (utils.swift:90-93), so its totals grow faster, and the cap tests that read them (utils.swift:138, 158, 179, 198, 229, 263, 289) can refuse lines the model still keeps once the cap binds.
- Construction.MakeAllPointsAndLines: runs `Construction.BuildRanks`, so it has the same exact counters and the same difference once the line cap binds.
- Paper.InsertPoint: compares points by the corrected key `1 + BucketX*(numY+1) + BucketY` where the program's `==` compares the hash `1 + BucketX*numY + BucketY` (PointVector.swift:18-24, 74-75). Two crossings in distinct buckets whose hashes collide are merged by the program and kept apart by the model.
- Paper.AddCrossing: the same corrected key for the test against the crossings found so far.
- Paper.EdgeCrossings: collects crossings with the corrected key, so it can keep two crossings the program merges.
- Paper.Clip: built on `Paper.EdgeCrossings`; where two crossings collide in the program's hash, the program finds one distinct crossing and returns nil, while the model returns `Some` with both.
- Paper.ContainedLineIsClipped: states `contains(line:)` through `Paper.Clip`, so with the corrected key and the same difference in the colliding case.
- References.RefEqualityIsKeyEquality: reference equality is equality of the corrected key; the program's compares the colliding hash.
- Axioms.Axiom5Fold: the test `p2 != p11` (Axioms.swift:74, 80) uses the corrected key.
- Axioms.Axiom5: keeps the tangent branch as written (Axioms.swift:63-65), which does not bring `p1` onto the line (see "## Findings"; `Axioms.Axiom5Corrected` is the corrected form); its secant branch runs `Axioms.Axiom5Fold` with the corrected key. Its reflection promise assumes a unit normal and a square root that squares back.
- Axioms.Axiom6Fold: the test `p1 == p1Folded` (Axioms.swift:121) uses the corrected key. That the fold brings `p2` onto `line2` is proved only for an exact root of the cubic.
- Axioms.Axiom6Folds: built on `Axioms.Axiom6Fold`, with the same corrected key.
- Axioms.Axiom6: the roots come from Cardano's method through `cbrt`, `acos` and `cos`, about which nothing is assumed, so that the folds bring `p2` onto `line2` is proved only under the hypothesis that the roots are exact roots of the cubic; the tests use the corrected point key.
- Generation.GeneratorEvents: the generators' tests `point1 != point2` (utils.swift:223, 255) use the corrected key.
- Generation.Tried: the same corrected key for the tests that the two points differ.
- Generation.SetInsertPoint: compares points by the corrected key `1 + BucketX*(numY+1) + BucketY`; the program's `==` compares the hash `1 + BucketX*numY + BucketY` (PointVector.swift:18-24), which merges some distinct buckets, so the program can drop a point the model keeps.
- Generation.InsertUniquePoint: the same corrected key, both for the test against lower ranks and for the key-0 test.
- Instructions.MakeInstructions: writes the A7 sentence with its full stop, as `Instructions.FoldSentence` does for the other axioms; the program's A7 sentence has none (utils.swift:743-744), see `Instructions.A7SentenceAsWrittenHasNoStop`.
- Parsing.Parser: the class keeps the source's reduction rule (`OnePop`), so its results match the source. The corrected rule `ShuntingYard` is proved separately; see "## Findings". A character that the source would read forever is rejected with `InvalidOperation`.
- BinaryImages.BinaryImage: loading from and writing to image files (`NSImage`, `NSBitmapImageRep`) is not modelled. The constructor takes the pixel grid.
- Swift traps on out-of-range indices and force-unwraps of `nil`: these become `requires` clauses where the source's callers guarantee them, and error results elsewhere.
- `MinIndex.MinIndex` is stated for `Int` elements. The source is generic over `Comparable`.
- Not part of this model: the user interface (views, controllers, panels), concurrency and progress reporting, image I/O, the Hough accumulator, Gaussian blur and the other image filters, and the older copies of the engine in other directories.
- `shouldStopInitialization` (cancellation from the UI) is not modelled. The rank loop always runs to completion.

## Findings

| source | as written | input that shows it | evidently intended | confidence | as-written member | corrected member |
|---|---|---|---|---|---|---|
| CreasePatternAnalyzer/Models/PointVector.swift:18-24 | `hashValue` is `1 + nx*numY + ny`, although `ny` takes `numY + 1` values on the paper; `==` compares hashes | unit square, 5000 x 5000 grid: `(0.5, 1.0)` and `(0.5002, 0.0)` hash alike | rows `numY + 1` apart, so that equal keys mean the same bucket | not executed | Geometry.PointHashAsWrittenCollides | Geometry.PointKeyIsBucket |
| CreasePatternAnalyzer/utils.swift:743-744 | the A7 sentence has no full stop, and `insertInstruction` force-unwraps the index of the first "." | any A7 step into which an intersection step is coalesced | the sentence ends with "." like the other six | not executed | Instructions.A7SentenceAsWrittenHasNoStop | Instructions.FoldSentenceEndsWithName |
| CreasePatternAnalyzer/utils.swift:86-93 | the local `numPoints`/`numLines` accumulate across ranks and are then added to the totals every rank | 4 edges, then ranks of 2 and 3 lines: 9 stored, 11 counted | the totals count each stored reference once | not executed | Construction.CountAsWrittenExample | Construction.BuildRanks |
| CreasePatternAnalyzer/Parser.swift:299-303 | an operator of equal precedence is pushed over the top one, so chains group to the right | "1-2-3" gives 2 and "8/4/2" gives 4 | left grouping: -4 and 1 | not executed | Parsing.EqualPrecedenceExamples | Parsing.ChainGroupsLeft |
| CreasePatternAnalyzer/Parser.swift:304-309 | a lower-precedence operator pops only one operator | "2*3*4+1" gives 26 | pop every tighter operator: 25 | not executed | Parsing.ReductionExamples | Parsing.FullReduction |
| CreasePatternAnalyzer/Parser.swift:333-352 | a character that starts no token is put back and an empty name is pushed, so the loop never advances | "#" | reject the character | not executed | Parsing.UnknownCharacterStalls | Parsing.UnknownCharacterRejected |
| Tree.swift:169-171 | `rightRotate` re-parents `newNode.left` to the rotated node, where the moved subtree `node.left` was meant | insert 3, 2, 1: the node of 1 keeps the node of 3 as its parent, and the generator yields only 1 | the moved subtree gets the rotated node as its parent, and `newNode.left` keeps `newNode` | not executed | RedBlackTree.ThreeTwoOneAsWritten | TreeRotation.RotateRightTree |
| Tree.swift:64-108 | inserting a value already present returns the existing node and still runs the colour repair from it | the six-node tree of `RedBlackTree.DuplicateSound`, then insert 4: it ends with a wrong parent link and paths with three and two black nodes | a duplicate leaves the tree unchanged | not executed | RedBlackTree.DuplicateRepairBreaks | RedBlackTree.Tree.Insert |
| CreasePatternAnalyzer/Utilities/utils-image.swift:139-140 | the sweep covers `1 ..< width - 2` and `1 ..< height - 2` | 3 x 3 image with only the centre true: it stays | every inner pixel `1 ..< width - 1` | not executed | BinaryImages.RemoveNoiseAsWrittenMisses | BinaryImages.BinaryImage.RemoveNoise |
| CreasePatternAnalyzer/Extensions/Array+minIndex.swift:18 | the loop runs over `0 ..< count - 1` and never looks at the last element | [2, 1] gives 0 | 1, the place of the smallest element | not executed | MinIndex.MinIndexAsWrittenMissesLast | MinIndex.MinIndex |
| Axioms.swift:63-65 | when the circle about `p2` through `p1` touches the line, the fold returned is `Line(point: p2, unitNormal: line.unitNormal)`, parallel to the line | `p2 = (0, 0)`, the line `y = 1`, `p1 = (1, 0)`: the fold is `y = 0` and leaves `p1` at `(1, 0)`, off the line | the fold through `p2` with normal `p1` minus the touching point, which takes `p1` to `(0, 1)` | not executed | Axioms.Axiom5TangentMisses | Axioms.Axiom5Corrected |
