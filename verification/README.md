# Secure control: a model and its proofs

This project models the parts of the secure-control repository that carry a claim over an unbounded domain, and
proves those claims in Dafny. Six parts, each in its own modules:

- **Robust invariance** (`LinearAlgebra`, `Determinants`, `Bareiss`, `GaussJordan`, `EllipsoidGeometry`, `Invariance`). An exact
  rational checker decides whether an ellipsoid is robustly invariant for an affine system. Rationals are `real`.
  Main result: the answer is "certified" exactly when every condition holds, and then every run, from every point of
  the initial box and under every disturbance sequence, stays inside and satisfies every constraint at every time.
- **Prime certification** (`NumberTheory`, `PrimeCertificates`). The screen never rejects a prime, and the recursive
  Pocklington checker accepts only primes, with one explicit hypothesis about the fixed bases below 2^64.
- **Two-party arithmetic** (`SecretSharing`, `Beaver`, `Truncation`, `TruncationProtocol`, `FixedPoint`,
  `MatrixBeaver`, `MatrixPrefixes`, `SeededMaterial`). Modular identities with a no-wrap bound, carried by one-time
  state machines, up to an error bound for a whole fixed-point multiplication and the agreement of the split matrix
  product with the one-shot form.
- **Commit and segment protocols** (`Links`, `ReadyCommit`, `Segments`, `SegmentRun`, `ScalarEpochs`). The client and
  the two parties as state machines over FIFO links that may break, with nodes that may fail at any point. The
  invariant says exactly which messages each link carries. Safety over all runs, freedom from deadlock and bounded
  completion without faults, and what the checks still guarantee when links may carry anything. Segments are run over
  the commit exchange itself, with its faults.
- **Credit-based material supply** (`MaterialCredit`). Worker, receiver, credit thread and claiming thread in any
  interleaving: the window inequalities, exact queue contents, progress, and coming to rest.
- **Byte streams** (`Framing`, `StreamMap`, `FrameExchange`, `Relay`, `RelayObservers`, `ResidueCodec`,
  `PreloadStore`). Loops with cursors, short reads and writes and bounded buffers, each equal to a simple function of
  the whole stream.

Code that updates objects in place is a class whose methods are proved against functions and predicates on values;
interleaved protocols are transition systems. A random draw, a clock reading or an operating-system answer is always
an input, so every statement holds for all of them.

One observation about the source: when the shape matrix fails its check, the report lists that check alone, even if
the fixed-point check before it failed too. `Invariance.ReasonsAreFailures` gives the exact condition under which the
reasons are the failed checks, and `Invariance.ReasonsCanOmitAFailure` a case where they are not.

`dafny verify dfyconfig.toml` checks the whole project.

## Model

| member | source | states |
|---|---|---|
| Bareiss.PivotRow | src/secure_control/core/invariance.py:562-568 | the first row at or below the diagonal with a nonzero entry, or none when the whole column is zero |
| Bareiss.EliminateBelow | src/secure_control/core/invariance.py:571-576 | the in-place row updates of one elimination step, entry by entry the fraction-free update; rows and columns already finished are untouched |
| Bareiss.FindPivot | src/secure_control/core/invariance.py:562-568 | the row to swap in: nonzero entry and all earlier ones zero, or the end when the column is zero |
| Bareiss.Determinant | src/secure_control/core/invariance.py:554-577 | the loop with row swaps and sign returns the determinant of the whole matrix, by its expansion along the first column; it never divides by a zero pivot |
| Bareiss.EliminationIsDeterminant | src/secure_control/core/invariance.py:562-577 | from any point of the elimination on, what it returns times the powers of the last pivot is the determinant of the active part; a row swap changes the sign of both |
| Bareiss.PivotStepDet | src/secure_control/core/invariance.py:571-576 | what one fraction-free step does to the determinant, divisions cleared |
| Bareiss.MinorsArePivots | src/secure_control/core/invariance.py:554-584 | for every square matrix, symmetric or not, the leading minors, each from its own elimination that may swap rows, are all positive exactly when the pivots of one unswapped elimination are |
| Bareiss.EnergyStep | src/secure_control/core/invariance.py:571-576 | one elimination step completes a square: a times the energy of x is a square plus the previous pivot times the energy of the reduced matrix at the remaining coordinates |
| Bareiss.EliminateSymmetric | src/secure_control/core/invariance.py:571-576 | elimination keeps symmetry |
| Bareiss.PivotsDecide | src/secure_control/core/invariance.py:580-584 | for symmetric matrices of any size the pivots are all positive exactly when the energy of every nonzero vector is |
| Bareiss.MinorsDecide | src/secure_control/core/invariance.py:580-584 | for symmetric matrices of any size all leading minors are positive exactly when the matrix is positive definite |
| Bareiss.IsPositiveDefinite | src/secure_control/core/invariance.py:580-584 | for symmetric matrices the answer is true exactly when the energy of every nonzero vector is positive |
| GaussJordan.ClearColumn | src/secure_control/core/invariance.py:597-603 | clearing the pivot column of every other row, in place, gives the cleared matrix entry by entry |
| GaussJordan.Inverse | src/secure_control/core/invariance.py:587-604 | no inverse exactly when the matrix is singular, otherwise a matrix that is an inverse on both sides |
| GaussJordan.SwapKeeps | src/secure_control/core/invariance.py:594-595 | swapping rows keeps the solution set and the columns already reduced |
| GaussJordan.DivideKeeps | src/secure_control/core/invariance.py:596-597 | dividing the pivot row keeps the solution set |
| GaussJordan.ClearKeeps | src/secure_control/core/invariance.py:598-603 | subtracting multiples of the pivot row keeps the solution set and reduces one more column |
| GaussJordan.FinishedInverts | src/secure_control/core/invariance.py:604 | when every column is reduced the right half is a two-sided inverse of the original matrix |
| GaussJordan.StuckMeansSingular | src/secure_control/core/invariance.py:592-593 | a column without a pivot means some nonzero vector is sent to zero, so the raise is reached only by singular matrices |
| GaussJordan.PositiveDefiniteInverts | src/secure_control/core/invariance.py:269 | a positive definite matrix is not singular, so the checker never reaches the raise of the inversion |
| GaussJordan.DeterminantDecides | src/secure_control/core/invariance.py:587-605 | the matrices the inversion raises on are exactly those whose determinant is zero |
| LinearAlgebra.CauchySchwarz | src/secure_control/core/invariance.py:292-296 | the squared mixed energy is at most the product of the energies, for every positive definite shape |
| LinearAlgebra.EnergyTriangle | src/secure_control/core/invariance.py:256-261 | energies bounded by p squared and q squared add up to at most (p + q) squared |
| EllipsoidGeometry.ContractionMeaning | src/secure_control/core/invariance.py:244-249 | the contraction matrix is positive definite exactly when the transition shrinks every nonzero vector's energy by more than gamma squared |
| EllipsoidGeometry.ContractionSymmetric | src/secure_control/core/invariance.py:244-248 | the contraction matrix of a symmetric shape is symmetric, so its symmetry test never fails |
| EllipsoidGeometry.DisturbanceEnergy | src/secure_control/core/invariance.py:251-259 | every disturbance within its bounds moves the state by at most the sum of eta times bound, in the norm of the shape |
| EllipsoidGeometry.VerticesComplete | src/secure_control/core/invariance.py:263-266 | the enumerated product of bounds is exactly the set of corners of the box |
| EllipsoidGeometry.BoxFromCorners | src/secure_control/core/invariance.py:263-267 | if the corners are within the level then so is every point of the box |
| EllipsoidGeometry.DualMeaning | src/secure_control/core/invariance.py:292-293 | the inverse-shape test on xi holds exactly when xi bounds the row over the whole unit ellipsoid |
| EllipsoidGeometry.RowRange | src/secure_control/core/invariance.py:619-624 | over an ellipsoid of the given radius a row stays within xi times the radius of its centre value |
| EllipsoidGeometry.UnitDualBoundIsCeiling | src/secure_control/core/invariance.py:607-616 | the integer bound is the least natural number whose square reaches the value: k bounds it exactly when k is at least the bound |
| EllipsoidGeometry.UnitDualBoundOnFractions | src/secure_control/core/invariance.py:610-616 | computing with numerator and denominator and an integer square root gives that same bound |
| Invariance.CheckContraction | src/secure_control/core/invariance.py:244-249 | the symmetry and definiteness test answers exactly whether the transition contracts |
| Invariance.InitialMeaning | src/secure_control/core/invariance.py:263-267 | the test of the 2^n corners holds exactly when the whole initial box is inside the ellipsoid |
| Invariance.CheckConstraints | src/secure_control/core/invariance.py:281-310 | the two checks recorded for each constraint, by name, order and meaning; the intervals, each the smallest one that holds what the witness leaves possible, and enclosing what really happens once its dual bound holds |
| Invariance.CoordinateBounds | src/secure_control/core/invariance.py:270-278 | each reported coordinate interval is the equilibrium give or take the radius times the least natural dual bound, and encloses that coordinate of every state in the ellipsoid |
| Invariance.VerifyEllipsoidalInvariant | src/secure_control/core/invariance.py:167-340 | certified exactly when every condition holds, each said of points and values alone, and the sizes are within limits; indeterminate exactly over the limits; the checks and the reasons are those specified; in every report the intervals are exact and enclose all reachable values |
| Invariance.LimitsAre | src/secure_control/core/invariance.py:359-394 | the limits in numbers |
| Invariance.ConstraintIsHull | src/secure_control/core/invariance.py:281-298 | a constraint interval is the smallest that contains every value left possible by an admissible disturbance and a state part of at most radius times dual bound |
| Invariance.RangeMeaning | src/secure_control/core/invariance.py:299-308 | the range check passes exactly when the constraint admits every one of those values, strictly where it is strict |
| Invariance.FixedPointMeaning | src/secure_control/core/invariance.py:224-228 | the fixed-point check passes exactly when the undisturbed dynamics leave the equilibrium where it is |
| Invariance.DisturbanceMeaning | src/secure_control/core/invariance.py:251-255 | the disturbance check passes exactly when every bound is nonnegative and a unit of each disturbance moves the state by at most its eta |
| Invariance.RadiusMeaning | src/secure_control/core/invariance.py:256-261 | the closure check passes exactly when the contracted radius and all disturbances on top fit in the radius |
| Invariance.FailedNamesParts | src/secure_control/core/invariance.py:321 | the reasons are the names of the failed checks, in order and with nothing else |
| Invariance.ConstraintEnclosed | src/secure_control/core/invariance.py:281-298 | a constraint interval encloses every value the constraint takes over the ellipsoid and all admissible disturbances, given only a positive definite shape, a radius that is not negative and the dual bound |
| Invariance.CertificateIsAllChecks | src/secure_control/core/invariance.py:312-322 | the certificate holds exactly when every check made passed, and exactly when no reason is given |
| Invariance.ReasonsAreFailures | src/secure_control/core/invariance.py:224-236 | the reasons given are the names of the failed checks exactly when the shape check passes or the fixed point holds |
| Invariance.ReasonsCanOmitAFailure | src/secure_control/core/invariance.py:224-236 | a problem and a witness within the limits where a failed fixed-point check is recorded but missing from the reasons |
| Invariance.StepStaysInside | src/secure_control/core/invariance.py:242-261 | one step from any state of the ellipsoid under any admissible disturbance ends in the ellipsoid |
| Invariance.EllipsoidIsSafe | src/secure_control/core/invariance.py:281-309 | every state of the ellipsoid under every admissible disturbance satisfies every constraint, strictly where it is strict, with a value inside the reported interval |
| Invariance.CertifiedRunsAreSafe | src/secure_control/core/invariance.py:173-174 | from every point of the initial box, under every disturbance sequence, at every time, the state is in the ellipsoid, every constraint holds, and its value is inside the reported interval |
| NumberTheory.Fermat | src/secure_control/crypto/primes.py:206-216 | a to the p is a modulo a prime p, by binomial coefficients |
| NumberTheory.CommonExponent | src/secure_control/crypto/primes.py:358-365 | two exponents that give 1 have a common divisor that gives 1 |
| PrimeCertificates.SplitTwos | src/secure_control/crypto/primes.py:201-204 | the odd part and the power of two of n - 1 |
| PrimeCertificates.TestBase | src/secure_control/crypto/primes.py:205-217 | one base's loop answers exactly whether some listed square is 1 or -1 |
| PrimeCertificates.TestBases | src/secure_control/crypto/primes.py:205-217 | all seven bases, those that vanish modulo n skipped |
| PrimeCertificates.Screen | src/secure_control/crypto/primes.py:193-217 | the screen as a predicate: small primes, trial division, then the seven bases |
| PrimeCertificates.RootsOfOne | src/secure_control/crypto/primes.py:209-214 | modulo a prime the only square roots of 1 are 1 and -1 |
| PrimeCertificates.PrimeIsStrong | src/secure_control/crypto/primes.py:205-217 | a prime passes the test of every base |
| PrimeCertificates.PrimePassesScreen | src/secure_control/crypto/primes.py:193-217 | the screen never rejects a prime, of any size |
| PrimeCertificates.ScreenMeaning | src/secure_control/crypto/primes.py:193-217 | the screen, exactly: one of the twelve small primes, or no multiple of one and a strong probable prime to the seven bases, said by congruences for any number |
| PrimeCertificates.ScreenIsExact | src/secure_control/crypto/primes.py:193-217 | below 2^64 the screen decides primality, on the one hypothesis that an odd number strong to the seven literal bases is prime there |
| PrimeCertificates.CheckFactor | src/secure_control/crypto/primes.py:304-331 | one factor is accepted exactly when it is screened below the limit or certified above it, within the node budget; the error category of a nested failure |
| PrimeCertificates.CheckFactors | src/secure_control/crypto/primes.py:295-366 | acceptance of the guarded body is exactly the validity of the certificate plus the node budget |
| PrimeCertificates.RaiseBounded | src/secure_control/crypto/primes.py:332-338 | the power when it stays within the bound, nothing when some partial power exceeds it |
| PrimeCertificates.CheckWitnesses | src/secure_control/crypto/primes.py:354-366 | every witness is in range, satisfies Fermat's condition and the gcd condition |
| PrimeCertificates.VerifyPocklington | src/secure_control/crypto/primes.py:275-368 | through any nesting: accepted exactly when the certificate is valid and its size fits the budget; the set of active candidates is restored |
| PrimeCertificates.PrimePowerDivides | src/secure_control/crypto/primes.py:354-366 | a witness of a prime factor makes that prime power divide s - 1 for every prime s dividing n |
| PrimeCertificates.PocklingtonTheorem | src/secure_control/crypto/primes.py:345-366 | a factored part whose square exceeds n, with a witness per factor, makes n prime |
| PrimeCertificates.ValidCertificateIsPrime | src/secure_control/crypto/primes.py:275-368 | whatever the nesting, an acceptable certificate certifies a prime, on that hypothesis |
| PrimeCertificates.ValidMeansCertifies | src/secure_control/crypto/primes.py:275-368 | a certificate is acceptable exactly when its factors are distinct, prime or certified, multiply to a divisor of n - 1 with square above n, and have witnesses, all said by congruences and divisibility |
| PrimeCertificates.CertifiedIsPrime | src/secure_control/crypto/primes.py:275-368 | those conditions alone make n prime, without any hypothesis |
| PrimeCertificates.WitnessMeaning | src/secure_control/crypto/primes.py:354-366 | the three tests of a witness hold exactly when it is in range, satisfies Fermat's congruence and shares no prime divisor with n after reduction |
| PrimeCertificates.VerifyPrimeModulus | src/secure_control/crypto/primes.py:371-425 | accepted exactly when prime below 2^64, or certified within the limits above; each other answer exactly when its condition holds; no prime is ever called composite |
| SecretSharing.ShareReconstructs | src/secure_control/crypto/secret_sharing.py:63-88 | for every draw both shares are canonical and reconstruct to the message modulo q |
| SecretSharing.ReconstructMeaning | src/secure_control/crypto/secret_sharing.py:86-88 | reconstruction gives the canonical residue of whatever the shares stand for |
| SecretSharing.LinearOperations | src/secure_control/crypto/secret_sharing.py:90-118 | the local additions, subtractions and public operations act on the shared message |
| Beaver.BeaverMultiplies | src/secure_control/crypto/beaver.py:157-219 | opening the masked differences and finishing on both sides gives shares of the product, for every sharing and every triple |
| Beaver.TripleLifecycle.ClaimMasking | src/secure_control/crypto/beaver.py:51-55 | each party masks once |
| Beaver.TripleLifecycle.ClaimOpening | src/secure_control/crypto/beaver.py:57-61 | opening happens once and only after both masked |
| Beaver.TripleLifecycle.ClaimFinish | src/secure_control/crypto/beaver.py:63-71 | each party finishes once after the opening; the second finish consumes |
| Beaver.TripleLifecycle.AcceptPeerReady | src/secure_control/crypto/beaver.py:37-42 | a peer's own witness retires the triple once, only after this party finished |
| Beaver.TripleLifecycle.AttestPeerFinish | src/secure_control/crypto/beaver.py:44-49 | the client's attestation retires the triple once, only after this party finished |
| Beaver.BeaverMultiplier.CreateTriple | src/secure_control/crypto/beaver.py:136-155 | fresh canonical shares of a, b and their product; one more pending triple |
| Beaver.BeaverMultiplier.MaskInputs | src/secure_control/crypto/beaver.py:157-176 | the masked differences, exactly when owner and lifecycle allow |
| Beaver.BeaverMultiplier.OpenMaskedDifferences | src/secure_control/crypto/beaver.py:178-195 | the opened differences, exactly when both parties of one triple are given and it was not opened |
| Beaver.BeaverMultiplier.Finish | src/secure_control/crypto/beaver.py:197-219 | the product share, exactly when allowed; created minus consumed counts the triples still pending |
| Truncation.CenteredRange | src/secure_control/crypto/truncation.py:14-16 | the centred residue is in the centred range and congruent |
| Truncation.CenteredUnique | src/secure_control/crypto/truncation.py:14-16 | and is the only such number |
| Truncation.InverseScaleInverts | src/secure_control/crypto/truncation.py:199-202 | the inverse scale inverts 2^ell modulo every odd q |
| Truncation.InverseScaleUnique | src/secure_control/crypto/truncation.py:199-202 | and is the only canonical residue that does |
| Truncation.PrimeModulusIsOdd | src/secure_control/crypto/truncation.py:172-182 | a prime modulus with kappa above ell is odd, which is what the inverse needs |
| Truncation.ParametersAre | src/secure_control/crypto/truncation.py:165-235 | the parameters in numbers: a modulus of so many bits leaves that many less two and less lambda for a message |
| Truncation.MaskNeverWraps | src/secure_control/crypto/truncation.py:267-302 | for every message, mask and low mask in range the masked value stays in the centred range of q |
| Truncation.LowBitsRemoved | src/secure_control/crypto/truncation.py:304-323 | removing the low bits of the masked value from the share leaves T times 2^ell |
| Truncation.PaperForm | src/secure_control/crypto/truncation.py:224-227 | the rounding as the source computes it equals floor(m / 2^ell + 1/2) |
| Truncation.TruncatedMeaning | src/secure_control/crypto/truncation.py:224-337 | T is less than one unit from m / 2^ell, exact on multiples, within 1 of the paper's rounding, and in the centred range |
| Truncation.Protocol2Truncates | src/secure_control/crypto/truncation.py:243-337 | for every odd q, message, mask and sharing: P1 recovers the exact masked value and the two output shares centre to T |
| TruncationProtocol.MaskLifecycle.ObserveAs | src/secure_control/crypto/truncation.py:64-69 | a lifecycle becomes single-party at most once and only before use |
| TruncationProtocol.MaskLifecycle.ClaimMask | src/secure_control/crypto/truncation.py:57-62 | each party masks once |
| TruncationProtocol.MaskLifecycle.ClaimP2Send | src/secure_control/crypto/truncation.py:71-76 | P2 sends once, after masking |
| TruncationProtocol.MaskLifecycle.ReceiveP2Message | src/secure_control/crypto/truncation.py:97-102 | a received message stands in for the sender's mask, once |
| TruncationProtocol.MaskLifecycle.ClaimP1Reconstruction | src/secure_control/crypto/truncation.py:78-82 | P1 reconstructs once, after its mask and P2's message |
| TruncationProtocol.MaskLifecycle.ClaimFinish | src/secure_control/crypto/truncation.py:84-95 | each party finishes once; the last required one consumes the mask |
| TruncationProtocol.MaskLifecycle.AcceptPeerReady | src/secure_control/crypto/truncation.py:50-55 | a peer's witness retires the mask once, after this party's own finish |
| TruncationProtocol.MaskLifecycle.AttestPeerFinish | src/secure_control/crypto/truncation.py:104-110 | the client's attestation retires the mask once, after this party's own finish |
| TruncationProtocol.SecureTruncation.CreateAuxiliary | src/secure_control/crypto/truncation.py:243-265 | fresh canonical shares of r and r', one more pending mask |
| TruncationProtocol.SecureTruncation.MaskInput | src/secure_control/crypto/truncation.py:267-278 | the masked share, exactly when owner and lifecycle allow |
| TruncationProtocol.SecureTruncation.P2SendMasked | src/secure_control/crypto/truncation.py:280-286 | P2's message, exactly once |
| TruncationProtocol.SecureTruncation.P1ReconstructMasked | src/secure_control/crypto/truncation.py:288-302 | the centred masked value, exactly when the message belongs to this mask |
| TruncationProtocol.SecureTruncation.FinishP1 | src/secure_control/crypto/truncation.py:304-323 | P1's output share, exactly once |
| TruncationProtocol.SecureTruncation.FinishP2 | src/secure_control/crypto/truncation.py:325-337 | P2's output share, exactly once; created minus consumed counts the masks still pending |
| TruncationProtocol.RunProtocol2 | src/secure_control/crypto/truncation.py:243-337 | a whole run over the stateful objects never fails, consumes its mask, and its output shares centre to T |
| FixedPoint.EncodeRounds | src/secure_control/crypto/fixed_point.py:173-204 | the encoded payload is within half a unit of the exact ratio, upward on ties, exact on integers |
| FixedPoint.EncodeFits | src/secure_control/crypto/fixed_point.py:173-205 | a ratio is encoded as its nearest payload exactly when that fits the signed width |
| FixedPoint.ContextMeaning | src/secure_control/crypto/fixed_point.py:55-66 | a context is usable exactly when every payload of the width has a centred representative |
| FixedPoint.EncodeIsNearest | src/secure_control/crypto/fixed_point.py:173-204 | the integer formula is the rounding of the exact scaled ratio |
| FixedPoint.FromResidueIsCentered | src/secure_control/crypto/fixed_point.py:206-213 | the signed representative is the centred residue |
| FixedPoint.ResidueRoundTrip | src/secure_control/crypto/fixed_point.py:137-143 | payloads in range survive the trip through the residues |
| FixedPoint.MultiplyPairMeaning | src/secure_control/crypto/fixed_point.py:257-266 | a product of residues is accepted exactly when the payload product has a centred representative, which it then is |
| FixedPoint.MultiplyPairAccepts | src/secure_control/crypto/fixed_point.py:257-272 | two residues are multiplied exactly when both stand for payloads and their product has a representative |
| FixedPoint.SecureMultiplication | src/secure_control/crypto/fixed_point.py:173-213 | encode, share, multiply, truncate, reconstruct and centre: within one unit of the product of the encodings, and a stated bound on the real error, for every draw |
| MatrixBeaver.DotExpand | src/secure_control/crypto/matrix_beaver.py:44-50 | (u + e)(v + f) expands modulo q into the four products |
| MatrixBeaver.OneShotMeaning | src/secure_control/crypto/matrix_beaver.py:158-172 | what one party's row is congruent to, with every intermediate reduction; the public product once |
| MatrixBeaver.PrefixMeaning | src/secure_control/crypto/matrix_beaver.py:193-237 | what the split form's row is congruent to |
| MatrixBeaver.SplitIsOneShot | src/secure_control/crypto/matrix_beaver.py:175-237 | for every shape and every cut of the column the split share equals the one-shot share |
| MatrixBeaver.MatrixProductReconstructs | src/secure_control/crypto/matrix_beaver.py:91-172 | for every shape, sharing and triple the two shares reconstruct to matrix times vector modulo q |
| MatrixPrefixes.MatrixPrefix.Start | src/secure_control/crypto/matrix_beaver.py:178-191 | the prefix masks, exactly when shapes, residues and the lifecycle allow |
| MatrixPrefixes.MatrixPrefix.OpenPrefix | src/secure_control/crypto/matrix_beaver.py:193-205 | opened once; any failure is terminal; L and H are kept |
| MatrixPrefixes.MatrixPrefix.Bind | src/secure_control/crypto/matrix_beaver.py:207-215 | W is bound once, between prefix and suffix |
| MatrixPrefixes.MatrixPrefix.MaskSuffix | src/secure_control/crypto/matrix_beaver.py:217-224 | the suffix starts at most once |
| MatrixPrefixes.MatrixPrefix.Finish | src/secure_control/crypto/matrix_beaver.py:226-237 | the share is delivered at most once and equals the one-shot share of the opened masks |
| MatrixPrefixes.MatrixPrefix.Abort | src/secure_control/crypto/matrix_beaver.py:239-240 | terminal |
| MatrixPrefixes.RunSplitProduct | src/secure_control/crypto/matrix_beaver.py:175-240 | two parties, separate objects and lifecycles: nothing fails and the outputs reconstruct to the product modulo q |
| SeededMaterial.ExpandResidue | src/secure_control/crypto/seeded_material.py:74-89 | the first of at most 256 masked blocks below q, or none when all are rejected |
| SeededMaterial.CandidateIs | src/secure_control/crypto/seeded_material.py:81-87 | a candidate is the block modulo the least power of two above q, so at most twice q |
| SeededMaterial.CorrectionsMakeTriple | src/secure_control/crypto/seeded_material.py:125-127 | independent U, V, W1 and the corrected W2 are a valid triple |
| SeededMaterial.DealerCorrections | src/secure_control/crypto/seeded_material.py:109-130 | the wire order of the corrections; W2 completes the triple and each second truncation share completes its first |
| ReadyCommit.PermitTaken | src/secure_control/execution/lan_runtime.py:2069-2091 | the permit at the head of a party's link is always the one its own count asks for |
| ReadyCommit.MessageIsExpected | src/secure_control/execution/_localhost_peer.py:182-204 | the peer message at the head of the link always has the due sequence number, kind and permit |
| ReadyCommit.ReplyIsExpected | src/secure_control/execution/lan_runtime.py:966-991 | the reply at the head of the client's link always carries the round in flight and the count it expects |
| ReadyCommit.PartyStepKeeps | src/secure_control/execution/lan_runtime.py:2137-2183 | every party step keeps the invariant, and no check ever rejects an honest message |
| ReadyCommit.TakeReplyKeeps | src/secure_control/execution/lan_runtime.py:966-991 | accepting a reply keeps the invariant; the second one records the double commit |
| ReadyCommit.FaultKeeps | src/secure_control/execution/_localhost_peer.py:182-204 | a lost link or a failed party at any point keeps the invariant |
| ReadyCommit.StepKeeps | src/secure_control/execution/lan_runtime.py:940-1036 | every step of client, parties and faults keeps the invariant on what each link carries |
| ReadyCommit.CommitsAreStaged | src/secure_control/execution/_localhost_peer.py:272-289 | no party commits a step whose READY the other has not sent; double commits are committed; commits are at most one ahead of the plant |
| ReadyCommit.StagedMeans | src/secure_control/execution/_localhost_peer.py:272-289 | a party has staged exactly the steps whose READY it has sent |
| ReadyCommit.RunsAreSafe | src/secure_control/execution/lan_runtime.py:940-1036 | in every run with any delays and faults: client double commits <= each party's commits <= confirmed + 1, parties at most one apart, equal permits wherever both committed, and a step the client has not counted only while a round is in flight or after it ended uncertain |
| ReadyCommit.RunsOnlyExtend | src/secure_control/execution/lan_runtime.py:979-987 | counts only grow, logs are only extended, a failed client is frozen, no round starts after a stop |
| ReadyCommit.FailurePhaseIsExact | src/secure_control/execution/lan_runtime.py:1454-1459 | a round that fails ends after-commit exactly when it was double committed, else uncertain exactly when a permit of it was handed to a link, failed exactly when none was |
| ReadyCommit.Progress | src/secure_control/execution/_localhost_peer.py:182-289 | while a round is in flight and nothing failed, some step of it is possible: the exchange cannot block itself |
| ReadyCommit.NormalStepsCountDown | src/secure_control/execution/lan_runtime.py:2137-2183 | every step of a round brings its end one step closer |
| ReadyCommit.RoundsComplete | src/secure_control/execution/lan_runtime.py:940-1036 | every fault-free way of running a round ends, within a fixed number of steps, in a double commit awaiting the plant |
| ReadyCommit.CommitsAreChecked | src/secure_control/execution/_localhost_peer.py:272-289 | whatever the link carries, a party commits only after taking the READY of its current permit |
| ReadyCommit.ChecksHoldAlone | src/secure_control/execution/lan_runtime.py:966-991 | with links that may carry anything: commits stay in order and matched by a READY, and double commits by both replies for the permit issued |
| Segments.RunControl.RequestStop | src/secure_control/execution/lan_runtime.py:1111-1119 | the stop is recorded; nothing clears it |
| Segments.SegmentedRuntime.Step | src/secure_control/execution/lan_runtime.py:1426-1459 | a round starts exactly when running, not pending, not full and not stopped; the phase after each outcome |
| Segments.SegmentedRuntime.ConfirmApplied | src/secure_control/execution/lan_runtime.py:1461-1474 | exactly the one pending result can be confirmed, once; anything else fails the run, as uncertain while a combined end-and-begin is unfinished |
| Segments.SegmentedRuntime.PrepareEnd | src/secure_control/execution/lan_runtime.py:1476-1501 | the action under the stop lock; continuing needs a full segment; the end that will be declared |
| Segments.SegmentedRuntime.CheckReceipts | src/secure_control/execution/lan_runtime.py:1514-1526 | accepted exactly when both receipts carry the client's end and counters; a validated one is kept |
| Segments.SegmentedRuntime.Seal | src/secure_control/execution/lan_runtime.py:1542-1559 | the sealed record is the confirmed rounds of the segment with both receipts |
| Segments.SegmentedRuntime.AcceptReceipts | src/secure_control/execution/lan_runtime.py:1538-1566 | sealed exactly when both agree; a late seal is kept but the run becomes uncertain |
| Segments.SegmentedRuntime.NextSegment | src/secure_control/execution/lan_runtime.py:1568-1598 | the next segment starts where the sealed one ended, only after both parties continued |
| Segments.SealingKeepsTiles | src/secure_control/execution/lan_runtime.py:1542-1559 | sealing keeps the records contiguous intervals from step 0 |
| Segments.SegmentsAreMultiples | src/secure_control/execution/lan_runtime.py:1485-1489 | segment k covers exactly the steps from k times the capacity to the next multiple when it continued |
| SegmentRun.PartyLedger.CommitRound | src/secure_control/execution/lan_runtime.py:2069-2074 | a round is accepted exactly in order and within the segment |
| SegmentRun.PartyLedger.CloseSegment | src/secure_control/execution/lan_runtime.py:1989-2008 | an end is accepted exactly when it is this party's own prefix; the receipt carries its own counters |
| SegmentRun.PartyLedger.OpenSegment | src/secure_control/execution/lan_runtime.py:1970-1988 | a begin is accepted exactly when it follows this party's own end |
| SegmentRun.PartyLedger.AdvanceSegment | src/secure_control/execution/lan_runtime.py:2009-2029 | end and begin in one message are both checked before either takes effect |
| SegmentRun.ExchangeKeeps | src/secure_control/execution/lan_runtime.py:1426-1459 | whatever happens in a round of the exchange, one permit was issued and the client has a result or one of the three failures, with the counts that go with it |
| SegmentRun.Conclude | src/secure_control/execution/lan_runtime.py:1426-1474 | the runtime is told the outcome the exchange really had: its counts stay those of the exchange, it runs on exactly when the round was double committed and read, and its failure phase says what the links and counts say |
| SegmentRun.RunRound | src/secure_control/execution/lan_runtime.py:1426-1474 | a round over the exchange starts exactly when not full and not stopped; if it comes back, client and parties agree again, and if not, the ledgers count exactly what each party committed, and a party holds a round the client has not counted only when the client says it does not know |
| SegmentRun.SealSegment | src/secure_control/execution/lan_runtime.py:1476-1611 | with any loss of requests, receipts or begins: sealed exactly when both receipts come back, whichever is first, and the phase that follows; no ledger becomes wrong |
| SegmentRun.RunScript | src/secure_control/execution/lan_runtime.py:1103-1131 | any script of rounds with any faults in the exchange, of stops and of closings with any losses: the records tile the run, no round starts after a stop anywhere in the script, and wherever it ends each party holds the double commits and at most one round more than the plant |
| SegmentRun.RunFromStart | src/secure_control/execution/lan_runtime.py:1103-1131 | the same for every run from the very start, without assumptions on the state |
| ScalarEpochs.TakenRequest | src/secure_control/execution/lan_scalar_runtime.py:473-527 | the request at the head of a party's link is always the one it is ready for |
| ScalarEpochs.GotAnswer | src/secure_control/execution/lan_scalar_runtime.py:334-388 | the answer at the head of the client's link is always the expected one |
| ScalarEpochs.AnswersAreChecked | src/secure_control/execution/lan_scalar_runtime.py:334-388 | the client goes on only on the one answer that fits its place, counts included |
| ScalarEpochs.IdleGoesOn | src/secure_control/execution/lan_scalar_runtime.py:307-330 | between rounds a round with distinct, unspent resources or the end can begin |
| ScalarEpochs.StagedMeans | src/secure_control/execution/lan_scalar_runtime.py:529-540 | a party has staged exactly the rounds whose result it has sent |
| ScalarEpochs.StartKeeps | src/secure_control/execution/lan_scalar_runtime.py:314-330 | ids are distinct, fresh and burned before anything is sent |
| ScalarEpochs.PartyStepKeeps | src/secure_control/execution/lan_scalar_runtime.py:472-550 | every party step keeps the invariant and no check rejects an honest client |
| ScalarEpochs.StepKeeps | src/secure_control/execution/lan_scalar_runtime.py:307-550 | every step of client, parties and faults keeps the invariant |
| ScalarEpochs.RunsAreSafe | src/secure_control/execution/lan_scalar_runtime.py:307-432 | client local step <= each party's commits <= local step + 1, equal logs, no commit unstaged by the other, disjoint resources, and a finished epoch names one prefix on all sides |
| ScalarEpochs.Progress | src/secure_control/execution/lan_scalar_runtime.py:307-432 | while a round or the end is under way and nothing failed, some step of it is possible |
| ScalarEpochs.RoundsAndEndsComplete | src/secure_control/execution/lan_scalar_runtime.py:307-432 | every fault-free way of running a round or the end is over within 26 or 8 steps: the round in one more step that all three hold, the end in two receipts for the same prefix |
| ScalarEpochs.ResourcesAreChecked | src/secure_control/execution/lan_scalar_runtime.py:501-504 | a party never spends a resource twice, whatever its link carries |
| ScalarEpochs.ResourcesNeverReused | src/secure_control/execution/lan_scalar_runtime.py:324-328 | with links that may carry anything, no side spends a resource twice or takes a step out of order |
| MaterialCredit.CommandKeeps | src/secure_control/execution/_material_worker.py:186-202 | the worker's range check never fires on credit from an honest parent |
| MaterialCredit.ReceiveKeeps | src/secure_control/execution/_material_worker.py:375-404 | the receiver's checks never fire on material from an honest worker |
| MaterialCredit.StepKeeps | src/secure_control/execution/_material_worker.py:225-474 | every step of every thread keeps the invariant |
| MaterialCredit.WindowHolds | src/secure_control/execution/_material_worker.py:225-474 | in every interleaving next <= received <= produced <= worker allowance <= parent allowance = next + slots, the queue is exactly the unclaimed steps, no step at or past the horizon is produced, and nothing fails before it is reached |
| MaterialCredit.RefusalsFail | src/secure_control/execution/_material_worker.py:186-202 | a credit that goes back or too far fails the worker; a wrong step, material without credit or room, and an unasked report fail the receiver; nothing else does |
| MaterialCredit.SupplyProgress | src/secure_control/execution/_material_worker.py:225-256 | until the queue is full some step of the supply is possible |
| MaterialCredit.ShutdownProgress | src/secure_control/execution/_material_worker.py:410-427 | after a close some step is possible until the worker's report is read |
| MaterialCredit.SupplyComesToRest | src/secure_control/execution/_material_worker.py:225-427 | left to itself the supply comes to rest in boundedly many steps: with a full queue and every claim announced, or after a close with a clean end of the receiver |
| MaterialCredit.ClaimsAreInOrder | src/secure_control/execution/_material_worker.py:453-474 | a claim hands out the next step and nothing else |
| MaterialCredit.ChecksHoldAlone | src/secure_control/execution/_material_worker.py:356-427 | whatever the pipes carry: claims in order from at most `slots` queued steps, and the worker within its window |
| MaterialCredit.MaterialPool.ReceiveOne | src/secure_control/execution/_material_worker.py:356-408 | the receiver thread's updates of the shared fields are the receive step |
| MaterialCredit.MaterialPool.ReadCredit | src/secure_control/execution/_material_worker.py:410-420 | what the credit thread reads under the lock is the credit step, coalescing several claims and the start of control |
| MaterialCredit.MaterialPool.SendCredit | src/secure_control/execution/_material_worker.py:421-425 | what it sends outside the lock is the packet it read |
| MaterialCredit.MaterialPool.Take | src/secure_control/execution/_material_worker.py:453-474 | the claiming thread gets the step it asks for exactly when that is the next one, it is queued, the process is alive and the last capability was bound |
| MaterialCredit.RunPool | src/secure_control/execution/_material_worker.py:286-474 | the shared object under any interleaving of its threads with the worker: window and queue are exact, and the claims are every step from the start to the next, once and in order |
| Framing.HeaderRoundTrip | src/secure_control/execution/localhost_transport.py:151-160 | the four-byte header says the length, for every length it can hold |
| Framing.FrameIsRead | src/secure_control/execution/localhost_transport.py:151-177 | reading one frame off a stream that begins with one gives back its body |
| FrameExchange.Exchange.SendOne | src/secure_control/execution/localhost_transport.py:224-247 | one send attempt ends the exchange only when the clock is late or the call is refused; a would-block does not |
| FrameExchange.Exchange.SendRequests | src/secure_control/execution/localhost_transport.py:221-251 | ends by (bytes left, stalls left); on success both requests are fully out; it stalls exactly after eight passes in a row without a byte, when the last eight calls on every unfinished side would have blocked |
| FrameExchange.Exchange.ReceiveOne | src/secure_control/execution/localhost_transport.py:257-289 | one receive attempt never reads past the header or body in hand, and ends the exchange only for a late clock, a refused call, a short stream, a header out of range or a rejected reply |
| FrameExchange.Exchange.ReceiveReplies | src/secure_control/execution/localhost_transport.py:254-294 | ends by (bytes left, stalls left); on success both callbacks ran and accepted; it stalls exactly after eight passes in a row without a byte |
| FrameExchange.Exchange.Run | src/secure_control/execution/localhost_transport.py:180-313 | on return each request went out byte for byte and each callback ran once on exactly its peer's frame body; on any fault what went out is a prefix, nothing was read before both requests were out and nothing past a frame, and the clock, a call, a reply or eight idle passes are to blame |
| FrameExchange.ExchangeTwoFrames | src/secure_control/execution/localhost_transport.py:180-313 | both payloads are checked before a byte leaves; with good peers, no refused call, never eight would-blocks in a row and a clock never late, it succeeds; any fault has its cause on one connection or the clock; and all that the exchange itself guarantees |
| StreamMap.ParseExtends | src/secure_control/execution/client_stream_map.py:288-306 | more bytes never change what was parsed; they continue the trailing partial frame |
| StreamMap.FramesTile | src/secure_control/execution/client_stream_map.py:288-306 | the recorded frames tile the stream with no gap, each as long as its own header says |
| StreamMap.FramesRecognised | src/secure_control/execution/client_stream_map.py:288-306 | well-formed frames within the capacity are recognised exactly |
| StreamMap.FirstHeader | src/secure_control/execution/client_stream_map.py:298 | a header is refused exactly when it announces nothing or more than sixteen mebibytes |
| StreamMap.PartyReceiveSocket.TakeHeaderByte | src/secure_control/execution/client_stream_map.py:289-299 | one header byte: the row opened, the capacity and the length errors |
| StreamMap.PartyReceiveSocket.TakeBody | src/secure_control/execution/client_stream_map.py:300-306 | one piece of a body; the last one completes the row |
| StreamMap.PartyReceiveSocket.Recv | src/secure_control/execution/client_stream_map.py:271-309 | after every recv the rows and the cursor are those of a parse of the bytes so far; errors are kept |
| StreamMap.PartyReceiveSocket.Validate | src/secure_control/execution/client_stream_map.py:207-228 | identity is bound exactly when the last frame ends the received bytes and has none yet; the setup checkpoint is set once, and a conflicting setup is an error after its row was written |
| StreamMap.PartyReceiveSocket.StateIsParse | src/secure_control/execution/client_stream_map.py:271-309 | the recorded state is a function of the stream alone |
| StreamMap.ReceiveAll | src/secure_control/execution/client_stream_map.py:271-309 | any way of cutting a stream into recv results records the parse of the whole stream |
| Relay.SerializationRoundsUp | src/secure_control/experiments/_network_emulator.py:158-159 | the serialisation time is the exact one rounded up to a nanosecond |
| Relay.Schedule.Enqueue | src/secure_control/experiments/_network_emulator.py:154-165 | the updated fields are the schedule of the extended arrivals |
| Relay.DueNeverDecreases | src/secure_control/experiments/_network_emulator.py:162 | due times never decrease |
| Relay.TxAttained | src/secure_control/experiments/_network_emulator.py:160 | the line time of a block is attained by some earlier arrival plus all serialisation since |
| Relay.TxBound | src/secure_control/experiments/_network_emulator.py:160 | and is at least that for every earlier arrival: the recurrence is the maximum |
| Relay.DueBound | src/secure_control/experiments/_network_emulator.py:160-162 | no block is due before any earlier arrival plus all serialisation since plus the low delay |
| Relay.DueAttained | src/secure_control/experiments/_network_emulator.py:161-162 | the due time is the line time plus propagation of some block up to this one |
| Relay.Direction.Read | src/secure_control/experiments/_network_emulator.py:260-278 | one read takes exactly what is offered within the limit, the room and the stream, and queues it as one scheduled block; nothing is read without room or after the end |
| Relay.Direction.ProgressHead | src/secure_control/experiments/_network_emulator.py:281-335 | early and unannounced sends are refused exactly; otherwise a would-block, a closed end and a short or full write each have exactly their effect, and no more is taken than the system took |
| Relay.Direction.Release | src/secure_control/experiments/_network_emulator.py:310-335 | after a short or full write every byte is still accounted for, in order, and the send was begun on time |
| Relay.RunDirection | src/secure_control/experiments/_network_emulator.py:260-335 | in every interleaving delivered bytes are a prefix of bytes read, as many as the system took, received = sent + queued within the limit, and no send was begun before the release bound of its block |
| RelayObservers.PublicRing.Append | src/secure_control/experiments/_network_emulator.py:224-235 | the ring holds the last rows in their slots and the first anomaly is the earliest |
| RelayObservers.PublicRing.Rows | src/secure_control/experiments/_network_emulator.py:254-257 | the report is the last 256 rows in the order they were appended |
| RelayObservers.SlotsApart | src/secure_control/experiments/_network_emulator.py:225-227 | two rows less than a ring apart never share a slot |
| RelayObservers.ShareTransitive | src/secure_control/experiments/_network_emulator.py:80-81 | comparing shares by cross-multiplication is transitive, so the kept peak is the largest |
| RelayObservers.NoLargerMeaning | src/secure_control/experiments/_network_emulator.py:80-81 | and it is the order of the shares themselves, as quotients |
| RelayObservers.WaitPolicy.SampleCpu | src/secure_control/experiments/_network_emulator.py:64-86 | the windows tile the time since the start, the peak is the largest share among the complete ones, a complete window over half the processor is recorded before the stop, and the last window at exit is kept whatever its length |
| ResidueCodec.WidthFits | src/secure_control/execution/localhost_codec.py:1063-1066 | the width holds every residue and one byte less would not hold the modulus |
| ResidueCodec.FitsMeaning | src/secure_control/execution/localhost_codec.py:1050-1086 | the block limits in numbers |
| ResidueCodec.BytesRoundTrip | src/secure_control/execution/localhost_codec.py:1059 | a number that fits comes back from its bytes |
| ResidueCodec.NumberRoundTrip | src/secure_control/execution/localhost_codec.py:1083 | bytes come back from their number |
| ResidueCodec.EncodeResidues | src/secure_control/execution/localhost_codec.py:1050-1060 | encoded exactly when the block fits the budget and every value is canonical |
| ResidueCodec.DecodeResidues | src/secure_control/execution/localhost_codec.py:1074-1086 | decoded exactly when the count, length and every residue are acceptable |
| ResidueCodec.CodecBijection | src/secure_control/execution/localhost_codec.py:1050-1086 | encoding and decoding are inverse between canonical vectors and accepted blocks |
| ResidueCodec.AcceptedBlocksDiffer | src/secure_control/execution/localhost_codec.py:1074-1086 | two accepted blocks never stand for the same residues |
| PreloadStore.PreloadStore.Load | src/secure_control/execution/lan_runtime.py:151-165 | the next block is taken exactly when its range, length and residues are right; its rows are appended |
| PreloadStore.PreloadStore.Seal | src/secure_control/execution/lan_runtime.py:167-172 | sealed exactly when complete, once |
| PreloadStore.PreloadStore.Claim | src/secure_control/execution/lan_runtime.py:174-195 | the next row exactly when sealed, in order and nothing is active; the row is zeroed |
| PreloadStore.PreloadStore.Commit | src/secure_control/execution/lan_runtime.py:197-201 | only the active claim can be committed: committed <= claimed <= committed + 1 |
| PreloadStore.PreloadStore.Close | src/secure_control/execution/lan_runtime.py:203-206 | the buffer is dropped |
| PreloadStore.SpliceRows | src/secure_control/execution/lan_runtime.py:162-163 | writing whole rows into the buffer replaces exactly those rows |
| PreloadStore.BlockIsCanonical | src/secure_control/execution/lan_runtime.py:706-716 | an exported block is accepted whatever its number of rows |
| PreloadStore.RoundTrip | src/secure_control/execution/lan_runtime.py:700-720 | export, load in blocks of any size, seal, claim and commit: the rows come back identical and in order |

## Left out

- Sockets, TLS, DNS, process start, selector waits, real-time deadlines and Win32 waiting: a connection is a source of short sends, short reads and would-blocks; a deadline is an arbitrary sequence of "expired" answers.
- SHA-256, HMAC (section 2 of RFC 2104), canonical JSON and Base64 (section 4 of RFC 4648): a digest comparison is a Boolean or an opaque value, a keyed block is an arbitrary number.
- Exactness of the seven Miller-Rabin bases below 2^64: a published computation, carried as the hypothesis `SevenBasesExact`.
- Secrecy and statistical hiding of masks and shares: only correctness is stated; every random draw is an input.
- Invariance.VerifyEllipsoidalInvariant: the size, corner and integer-bit limits are modelled, the largest bit count being an input; the limits on text length, the certificate digest, field type checks and parsing of numbers are not.
- PrimeCertificates.VerifyPrimeModulus: the digest of the certificate is an input (none when computing it already exceeds a limit); factor order and text fields of the canonical form are not modelled.
- FixedPoint.SecureMultiplication: starts at the exact ratio of each float; array broadcasting and decoding to binary floating point are not modelled.
- MatrixPrefixes.RunSplitProduct: arrays are sequences of rows, a one-column array is a sequence; the bypass for standard arrays and the size budget are not modelled.
- The stateful form of the one-shot matrix multiplier: same lifecycle as the scalar triple, so only its arithmetic is here.
- ReadyCommit.RunsAreSafe: client and parties are records stepped by one transition function rather than objects updated in place, because their steps interleave; the exchange of the next prefix is placed at the start of each round, and the arithmetic inside a stage is abstract.
- ReadyCommit.RoundsComplete: covers fault-free rounds; under faults only safety is stated.
- Segments.SegmentedRuntime.Step: takes the outcome of the round as an input; `SegmentRun.RunRound` supplies the one the commit exchange had.
- SegmentRun.RunScript: the profiles that keep one session over all segments; reconnecting profiles and the switch to a scalar epoch after a segment are not modelled.
- ScalarEpochs.PartyStepKeeps: the gate-by-gate exchange between the parties inside an evaluation is one abstract step; it may fail at any point.
- MaterialCredit.WindowHolds: pipes are unbounded FIFO queues, the worker may generate even when a command has just arrived (more interleavings than the source has); memory guards and startup keys are not modelled.
- StreamMap.PartyReceiveSocket.Recv: timestamps, thread identity and the 63-bit counter limit are not modelled; the client-side recorder of the same file keeps the same framing and is not repeated.
- FrameExchange.Exchange.Run: restoring the socket timeout, failures of the readiness wait itself and the observer hooks are not modelled; the single-connection duplex exchange and the exact-read helpers would only repeat it.
- Relay.RunDirection: fairness between directions, stop handling and the selector loop are not modelled; the propagation draw is an input between the model's bounds.
- PreloadStore.PreloadStore.Load: run, session, layout and digest identities are one Boolean; the plan of a claimed row is its index.
- ResidueCodec.EncodeResidues: the shape of a plan's resources around the residues is not modelled.
- Permit references, READY compaction and the two-phase reply of the second wire version: field-by-field copies.
- Garbage-collector, memory and tail diagnostics, timing records, configuration, command-line scripts, plotting, publishing, GUI.
- The float eigenvalue analysis of the stability module, and the staging internals of the protocol package.
