# Verified model of an oblivious PRF and its point functions

This project models, in Dafny, a two-party oblivious PRF over GF(2^255 - 19) and the distributed point functions of the
library it ships with, and proves what the code is for.

- The field: 32-limb arithmetic with lazy addition, products folded by 38 and carry passes (`Fe25519`, `Fe25519Forms`,
  `Fe25519Pow`); the straight-line exponentiation programs and their generator (`SlidingWindow`, `FastResidue`).
- The protocol, bottom up: small-set VOLE (`SmallSetVole`), VOLE+ (`VolePlus`), the polynomial proof (`ZkPoly`,
  `ZkConstraints`, `ZkProver`, `Zkp`), its power-residue certificate (`PowerResidue`), and one whole honest run (`Oprf`,
  `OprfRun`). A field element of the protocol layer is any integer of its residue class; `Field.R` is its canonical residue.
- The point functions: shared multiplication (`DpfMult`), the binary tree (`DpfTree`, `RegularDpf`, `RegularDpfRun`), the
  ternary tree (`TernaryDpf`, `TernaryDpfRun`) and the compressed trie (`SparseTree`, `SparseDpf`, `SparseEval`,
  `SparseDpfRun`). The
  AES-based expansions are arbitrary functions; correctness does not depend on which.
- Fast forms with simple meanings: Miller-Rabin and the next prime (`MillerRabin`), reduction modulo x^p - 1
  (`QuasiCyclic`), the pruned partition count (`Partitions`) and what it counts (`Deltas`).

Objects the source updates in place are classes with `modifies` clauses; loops stay loops and are tied to specification
functions whose properties the lemmas prove. `dafny verify dfyconfig.toml` checks the project. The prime is that of section
4.1 of RFC 7748, and the top-bit mask of `Unpack` that of section 5 of RFC 7748.

Four places where the code does not do what its comments promise are kept as they are, with the exact condition proved:
`fe25519_pack` skips limb 1 in its test (`Fe25519Forms.Pack`), `fe25519_freeze` does not reach the canonical value of a
product whose top limb is 128 (`Fe25519Forms.Freeze`), `power` returns one for the zeroth power modulo one
(`MillerRabin.Power`), and a point alone in its dense bin receives its value only if the leaves of the bin's two dense
seeds collide (`SparseDpfRun.ExpandDense`, `SparseDpfRun.LoneBinFails`).

## Model

| member | source | states |
|---|---|---|
| Fe25519.DigitsUnique | field25519/fe25519.cpp:6-24 | a list of byte limbs is the base-256 expansion of its value, so limb-for-limb claims follow from values |
| Fe25519.CarryPass | field25519/fe25519.cpp:13-22 | one carry pass in place: the value stays the same modulo p, no 32-bit addition wraps, limbs 0 to 30 are bytes |
| Fe25519.ReduceAddSub | field25519/fe25519.cpp:6-24 | for all limbs up to 2^31: the residue is kept and the result has byte limbs and a value below 2^255 |
| Fe25519.FoldValue | field25519/fe25519.cpp:211-213 | folding the 63 product coefficients by 38 keeps the residue |
| Fe25519.ReduceMul | field25519/fe25519.cpp:26-44 | after two passes limbs 0 to 30 are bytes and limb 31 is at most 128, residue kept, no wrap |
| Fe25519.Mul | field25519/fe25519.cpp:200-216 | for all limb bounds A, B with A*B up to 3,600,000: the product is exact modulo p, nothing wraps, limbs 0 to 30 at most 255 and limb 31 at most 128 |
| Fe25519.SquareIsProduct | field25519/fe25519.cpp:225-230 | the halved row sums of the squaring loop are the schoolbook coefficients of x times x |
| Fe25519.Square | field25519/fe25519.cpp:218-236 | square equals mul(x, x) limb for limb, without wrap |
| Fe25519Forms.AddLazy | field25519/fe25519.cpp:168-173 | the unreduced sum has the exact value and the stated limb bounds |
| Fe25519Forms.TwicePValue | field25519/fe25519.cpp:175-185 | the constants added before a subtraction are the limbs of 2p |
| Fe25519Forms.SubLazy | field25519/fe25519.cpp:188-198 | subtraction after adding 2p limb by limb neither wraps nor changes the residue |
| Fe25519Forms.AtLeastPValue | field25519/fe25519.cpp:50-53 | the limb test of freeze holds exactly for values p and above |
| Fe25519Forms.Freeze | field25519/fe25519.cpp:47-59 | the result is the representative below p if and only if limb 31 is below 128; a product may leave 128 there, and then nothing is changed |
| Fe25519Forms.FreezeWitness | field25519/fe25519.cpp:47-59 | a concrete product with limb 31 at 128, which freeze leaves as it is |
| Fe25519Forms.IsZero | field25519/fe25519.cpp:72-79 | true exactly for the value zero |
| Fe25519Forms.Unpack | field25519/fe25519.cpp:91-97 | the bytes modulo 2^255, as byte limbs |
| Fe25519Forms.Pack | field25519/fe25519.cpp:100-115 | equals freeze-then-copy if and only if the value is outside the band that line 108 leaves untested (limbs 2 to 31 maximal, limb 0 at least 237, limb 1 below 255); inside it the exact garbled bytes are stated |
| Fe25519Forms.PackBandWitness | field25519/fe25519.cpp:108-114 | a concrete value whose packed bytes are not its canonical bytes |
| Fe25519Forms.Neg | field25519/fe25519.cpp:150-158 | the reduced negation |
| Fe25519Pow.PowWindowed | field25519/fe25519.cpp:239-274 | for every 32-byte little-endian exponent e the result is x^e modulo p |
| Fe25519Pow.Select | field25519/fe25519.cpp:267-269 | the masked table scan picks exactly the entry of the window value |
| Fe25519Pow.Invert | field25519/fe25519.cpp:309-398 | the chain of squarings and products raises to p - 2 |
| Fe25519Pow.InverseIsInverse | field25519/fe25519.cpp:309-398 | for p prime and x nonzero, x times invert(x) is 1 |
| SlidingWindow.RunComputesPowers | scripts/generate_fast_ops.py:3-55 | running straight-line code over any associative product leaves in each variable the power that its exponent account says, and a run fails exactly on unassigned operands |
| SlidingWindow.BitsRoundTrip | scripts/generate_fast_ops.py:4 | the binary digits of an exponent give back the exponent |
| SlidingWindow.WindowLength | scripts/generate_fast_ops.py:34-38 | the look-ahead finds the longest window of at most w digits that ends in a one |
| SlidingWindow.Emit | scripts/generate_fast_ops.py:3-55 | for every exponent at least 1 and window at least 2 the emitted program reads only assigned variables, its exponent account of t is the exponent, and it is the specified program |
| SlidingWindow.EmittedPower | scripts/generate_fast_ops.py:3-55 | running such a program over any associative product leaves x^exp in t |
| SlidingWindow.GreedyGenerates | scripts/generate_fast_ops.py:25-51 | every list of odd windows that fit and are followed by enough zeros is the program that the generator emits for its exponent |
| FastResidue.ExponentFacts | scripts/generate_fast_ops.py:58-63 | EPS * D = p - 1 and Y * EPS = -1 modulo D, for the constants used |
| FastResidue.ProgramExponents | fast_residue_25519.h:16-645 | the three unrolled programs raise to EPS, D and Y |
| FastResidue.HeaderGenerated | fast_residue_25519.h:16-645 | the three unrolled programs of the header are, instruction by instruction, what the generator emits for EPS and window 4, and for D and Y and window 5 |
| FastResidue.Execute | fast_residue_25519.h:18-52 | running a program instruction by instruction over field elements gives the residue of the power |
| FastResidue.PowEps | fast_residue_25519.h:18-52 | x^EPS modulo p |
| FastResidue.PowD | fast_residue_25519.h:57-349 | x^D modulo p |
| FastResidue.PowY | fast_residue_25519.h:353-645 | x^Y modulo p |
| FastResidue.PresidueEps | fast_residue_25519.h:646-659 | the assembled bytes are the canonical residue of x^D modulo 2^40 |
| FastResidue.SymbolWritten | fast_residue_25519.h:646-659 | in plain arithmetic the symbol is x^((p-1)/781764) modulo p, modulo 2^40 |
| FastResidue.SymbolCongruent | fast_residue_25519.h:646-659 | the symbol depends on the residue class alone |
| SmallSetVole.SumsFit | smallSetVoleFast.h:92-115 | for up to 2^12 leaves neither the sum nor the index-weighted sum of 32-bit words leaves 64 bits |
| SmallSetVole.FourSteps | smallSetVoleFast.h:102-115 | four unrolled suffix-sum steps advance the plain and the weighted sum by four leaves |
| SmallSetVole.ExpandAndAdd4 | smallSetVoleFast.h:52-125 | every lane gets exactly the four unrolled additions modulo 2^64 |
| SmallSetVole.SumTree | smallSetVoleFast.h:187-190 | the descending loop gives the sum of r_i in one buffer and the sum of i * r_i in the other |
| SmallSetVole.BytesToFe | smallSetVoleFast.h:127-137 | eight 64-bit lanes below 2^55 become a reduced element of the same residue |
| SmallSetVole.LeafElementWords | smallSetVoleFast.h:73-81 | the element that one leaf adds at position i, from its words w: w[8i] + 2^32 w[8i+2] + 2^64 w[8i+4] + 2^96 w[8i+6] + 2^128 w[8i+1] + 2^160 w[8i+3] + 2^192 w[8i+5] + 2^224 w[8i+7] |
| SmallSetVole.LeafSumStep | smallSetVoleFast.h:92-115 | a leaf sum takes from leaf j exactly c + d*j times that element |
| SmallSetVole.SendTree | smallSetVoleFast.h:182-198 | one sender row, position by position: u is the sum of j times the element of leaf j and v is minus the sum of the elements, modulo p |
| SmallSetVole.ReceiveTree | smallSetVoleFast.h:271-319 | one receiver row: the sum of j - h times the element of leaf j, modulo p |
| SmallSetVole.Send | smallSetVoleFast.h:164-198 | every row of the sender belongs to its own tree behind the offset |
| SmallSetVole.Receive | smallSetVoleFast.h:249-321 | every row of the receiver belongs to its own tree, and the small keys are the puncture points |
| SmallSetVole.SentTreeMeans | smallSetVoleFast.h:164-198 | both rows of a tree of the sender, written out on the words that its own 2^bits seeds expand to |
| SmallSetVole.ReceivedTreeMeans | smallSetVoleFast.h:249-321 | the row of a tree of the receiver, written out in the same way |
| SmallSetVole.LeafSumPunctured | smallSetVoleFast.h:306-318 | the receiver's combination does not depend on what it holds at the punctured leaf |
| SmallSetVole.VoleCorrelation | smallSetVoleFast.h:182-198 | o = u + h * v in every position, whatever the receiver holds at the punctured leaf |
| Field.DotProduct | voleUtils.h:100-110 | the accumulated inner product |
| Field.DotCorrelated | VolePlus.h:84-103 | an inner product keeps o = u + h * v |
| VolePlus.ColumnCorrelated | VolePlus.h:139-146 | a combination of aligned rows is correlated under the combined key |
| VolePlus.ColumnWritten | VolePlus.h:139-146 | the combination of a column adds lambda_i times the entry of row i |
| VolePlus.VolePlus.SendDerandomization | VolePlus.h:182-195 | the sent differences to the first row |
| VolePlus.VolePlus.SendChecks | VolePlus.h:204-216 | the sent inner products with gamma |
| VolePlus.VolePlus.SendShares | VolePlus.h:229-270 | u' and v' as sent, up to residues |
| VolePlus.VolePlus.ReceiveDerandomization | VolePlus.h:64-77 | row 0 stays, and to every other row h_i times the received differences are added, whatever was received |
| VolePlus.DerandomizedAligned | VolePlus.h:64-77 | for the differences of an honest sender every row is then correlated through the first |
| VolePlus.VolePlus.ReceiveChecks | VolePlus.h:84-103 | accepts exactly when every check is zero modulo p |
| VolePlus.VolePlus.ReceiveShares | VolePlus.h:128-167 | o, c_v and c_u from the received shares |
| VolePlus.HonestChecksPass | VolePlus.h:89-103 | every honest check is zero |
| VolePlus.OutputEntry | VolePlus.h:147-160 | the entry of o is u + h * v |
| VolePlus.Run | VolePlus.h:52-271 | a whole honest run for any length and repetition count: all checks pass, o = u + h * v, and the client folds to the values r_u + <gamma,u> and r_v + <gamma,v> of the server |
| Poly.EvalConv | ZKP.h:90-108 | evaluation is multiplicative on the convolution product |
| ZkPoly.AddTo | ZKP.h:49-55 | mixed-degree addition adds values at every point |
| ZkPoly.ShiftUp | ZKP.h:65-78 | shifting by n multiplies values by x^n and keeps the leading coefficient |
| ZkPoly.Times | ZKP.h:90-108 | the accumulated product multiplies values and leading coefficients |
| ZkConstraints.TermAtOne | ZKP.h:572-711 | at key one a homogenised term is its scaled residual |
| ZkConstraints.FoldAtOne | ZKP.h:598-711 | at key one the fold is the scalar-weighted sum of the residuals |
| ZkConstraints.FoldCongruent | ZKP.h:572-711 | congruent keys give congruent folds |
| ZkConstraints.FoldOfStatement | ZKP.h:541-547 | public inputs with equal residues give congruent folds |
| ZkConstraints.Differences | ZKP.h:253-409 | the 68 constraints in plain arithmetic on the committed values, with literal positions |
| ZkConstraints.LinearIff | ZKP.h:253-308 | the first 55 differences vanish modulo p if and only if c_u, c_v and every m_i of the statement are the ones that the committed values make true |
| ZkConstraints.FoldShift | ZKP.h:559-711 | changing the public c_u, c_v and m_i of a statement changes the fold by exactly the scaled changes times Delta^5 |
| ZkProver.MultiplierIsPower | ZKP.h:181-183 | the byte written into the multiplier is 2^(i * bits) |
| ZkProver.TermsUV | ZKP.h:253-291 | the polynomials of constraints 1 and 2 take the value of their homogenised terms up to the public constant |
| ZkProver.TermOfB | ZKP.h:298-308 | the same for the constraints on b_i |
| ZkProver.TermOfC | ZKP.h:317-341 | the same for the five-fold products |
| ZkProver.TermOfY | ZKP.h:347-366 | the same for the fifth powers |
| ZkProver.TermOfA0 | ZKP.h:372-380 | the same for a_0 |
| ZkProver.TermOfA1 | ZKP.h:386-396 | the same for a_1 |
| ZkProver.TermOfInv | ZKP.h:402-409 | the same for the last constraint |
| Zkp.FoldAll | ZKP.h:249-409 | the folded proof polynomial takes, at every point x, the value of all terms on the keys at x plus the public constants times x^5, and the corresponding leading coefficient |
| Zkp.Prover.Commit | ZKP.h:148-197 | the committed values, masks and combined MACs, and the sent shifts |
| Zkp.Prover.CommitCheck | ZKP.h:206-231 | the folded values of the consistency check |
| Zkp.Prover.Prove | ZKP.h:237-429 | the five sent coefficients are those of one polynomial that has the folded and masked value at every point at once |
| Zkp.Verifier.Receive | ZKP.h:465-502 | the derandomised rows, the combined keys and Delta |
| Zkp.Verifier.Check | ZKP.h:520-537 | good exactly when every folded difference is zero modulo p |
| Zkp.Verifier.FoldKeys | ZKP.h:559-711 | the accumulated check is the fold of all 68 terms on the keys |
| Zkp.Verifier.Verify | ZKP.h:541-751 | valid exactly when the received polynomial at Delta equals the fold plus the masks modulo p |
| Zkp.CommitmentAligned | ZKP.h:470-476 | derandomised rows are correlated through the committed values |
| Zkp.KeysMatch | ZKP.h:486-502 | the keys of the verifier are the committed polynomials at Delta |
| Zkp.HonestCommitCheck | ZKP.h:521-536 | the consistency check of an honest commitment is zero, whatever the uninitialised check position holds |
| Zkp.AcceptsExactly | ZKP.h:541-751 | for any committed values, valid or not, and statements of the two sides that share scalars, offsets, gamma and indices, with matching keys: verify accepts if and only if (scalar-folded sum of all residuals of its own statement) * Delta^5 is zero |
| Zkp.Exchange | ZKP.h:237-751 | a whole proof, for any committed values and any c_u, c_v, m_i on either side: accepted if and only if the 68 differences of the verifier's statement, weighted by one and the scalars, times Delta^5 vanish modulo p |
| Zkp.OneWrong | ZKP.h:541-751 | a statement wrong in exactly one of the 68 places is rejected when the scalar of that place and Delta are nonzero |
| Zkp.AcceptsIffFoldZero | ZKP.h:713-750 | with a nonzero Delta, if and only if the folded sum itself is zero |
| PowerResidue.FifthChain | ZKP.h:344-366 | constraints 57 to 64 make y_i the 5^i-th power of a |
| PowerResidue.Certificate | ZKP.h:311-409 | any values meeting the constraints on c_0, c_1, y_i, a_0, a_1 and the last one have (product of the v_i) * a^781764 = 1 |
| PowerResidue.CertificateIsPower | ZKP.h:311-409 | so the product is an eps-th power, that of the inverse of a |
| PowerResidue.CertificateExistsIff | ZKP.h:311-409 | given the v_i, such values exist if and only if the full-width residue symbol of their product is one |
| PowerResidue.RootFromSymbol | scripts/generate_fast_ops.py:62-63 | the Y-th power of a value of symbol one is the inverse of an eps-th root of it |
| PowerResidue.CompletedHolds | OPRF.h:466-505 | the values the server computes with exponent Y always meet those constraints when the product has symbol one |
| PowerResidue.CompletedZero | OPRF.h:466-505 | for a zero product they meet all but the last, whose residual is then minus one |
| Oprf.Oprf.Witness | OPRF.h:460-525 | the committed vector: the key, v_i and b_i as eps-th powers of the draws, u_i = (K + l'_i) * v_i, and the completed certificate |
| Oprf.Oprf.Powers | OPRF.h:491-505 | the chain y_i = y_{i-1}^5, the two quotient values and the two half products |
| Oprf.Oprf.Symbols | OPRF.h:484-489 | the symbols of the shifted keys |
| Oprf.Oprf.FoldShares | OPRF.h:592-597 | c_u = r_u + <gamma,u> and c_v = r_v + <gamma,v> |
| Oprf.Oprf.Masked | OPRF.h:572-576 | m_i = b_i * (K + l_{c_i}) at the received one-byte indices |
| Oprf.Oprf.EvalSymbols | OPRF.h:370-372 | the evaluation symbols modulo the literal 2^32 |
| Oprf.Oprf.NoneZero | OPRF.h:278-283 | accepts exactly when no symbol is zero |
| Oprf.Oprf.Opened | OPRF.h:325-330 | accepts exactly when every opened value carries the challenged symbol |
| Oprf.KPlus | VolePlus.h:37 | bits times the repetition count of VOLE+ is the least multiple of bits that reaches 2 * statistical + 255 |
| Oprf.KZk | ZKP.h:144 | bits times the repetition count of the proof is the least multiple of bits that reaches statistical |
| OprfRun.SmallSet | OPRF.h:216-225 | both calls of a small-set VOLE on seeds that agree off the punctures give correlated rows |
| OprfRun.CommitPhase | OPRF.h:237-245 | an honest commitment is accepted and the keys match it |
| OprfRun.LinearConstraints | ZKP.h:253-308 | the constraints 0 to 54 hold exactly on the witness of the server |
| OprfRun.WitnessFold | OPRF.h:460-525 | the folded residuals of the server's witness are zero for nonzero draws, and minus the last scalar otherwise |
| OprfRun.OpenedExactly | OPRF.h:572-576 | all opened values carry their symbols exactly when no b_i was drawn from zero and every challenge has the symbol of its low byte |
| OprfRun.EvaluationSymbol | OPRF.h:370-372 | v cancels in o: the evaluation symbol is that of K + l' + h |
| OprfRun.ProofPhase | OPRF.h:341-348 | the proof of an honest server is accepted exactly when the draws r_i are nonzero or the last scalar times Delta^5 vanishes |
| OprfRun.Run | OPRF.h:153-385 | a whole honest run for every key, hashed input, draws, punctures, seeds and challenges: the client accepts exactly when no commitment symbol is zero, the draws behind b are nonzero, every challenge has the symbol of its low byte and the draws behind v are nonzero (or the last scalar times Delta^5 vanishes), each written out; the symbols are those of K + l_i and, modulo the literal 2^32, of K + l'_i + h, free of all randomness |
| DpfMult.DpfMult.Init | libOTe/libOTe/Dpf/DpfMult.h:35-48 | a party index above one is refused; otherwise all transfers are cleared |
| DpfMult.DpfMult.SetBaseOts | libOTe/libOTe/Dpf/DpfMult.h:146-162 | accepts exactly matching sizes |
| DpfMult.BeaverShares | libOTe/libOTe/Dpf/DpfMult.h:51-88 | two transfers and the two openings give XOR shares of x * y |
| DpfMult.Multiply | libOTe/libOTe/Dpf/DpfMult.h:89-142 | refused exactly on unequal sizes, too few transfers left or none set; otherwise shares of every product, and exactly that many transfers are used up |
| DpfTree.WordCorrects | libOTe/libOTe/Dpf/RegularDpf.h:713-731 | the word for a path bit makes the other child equal and leaves opposite low bits on the path |
| DpfTree.SeedsWritten | libOTe/libOTe/Dpf/RegularDpf.h:486-544 | the corrected seeds of every level, written out: left and right expansion of the parent, each XORed with its side of the word where the low bit of the parent is set |
| DpfTree.TreesOnPath | libOTe/libOTe/Dpf/RegularDpf.h:360-545 | before the correction of every level the parties agree off the path parent, whose tags are opposite, and hold on the path what the dealer tracks |
| DpfTree.CorrectedOnPath | libOTe/libOTe/Dpf/RegularDpf.h:360-545 | after the correction of every level off-path seeds and tags are equal and the on-path tags are opposite |
| DpfTree.SumDifference | libOTe/libOTe/Dpf/RegularDpf.h:491-543 | whole-level sums of the two parties differ by the path children alone |
| RegularDpf.NewParty | libOTe/libOTe/Dpf/RegularDpf.h:219-236 | refused exactly for a party index above one, a domain below two or an empty list of points |
| RegularDpf.RootWritten | libOTe/libOTe/Dpf/RegularDpf.h:346-353 | the root of tree k is blocks 2k and 2k + 1 of the seed stream |
| RegularDpf.Party.Expand | libOTe/libOTe/Dpf/RegularDpf.h:486-544 | one level in place: corrected seeds become tags, children and their two sums are those of the corrected level |
| RegularDpf.Party.Advance | libOTe/libOTe/Dpf/RegularDpf.h:486-544 | the rotating rows and sums of every tree move from level iter to level iter + 1 |
| RegularDpf.Party.CorrectLeaves | libOTe/libOTe/Dpf/RegularDpf.h:554-596 | leaf values, tags and leaf sum of the corrected rows below the domain |
| RegularDpf.Party.ExpandKey | libOTe/libOTe/Dpf/RegularDpf.h:776-787 | expansion from a key evaluates every column of the key at every point of the domain, the root blocks coming from one seed stream |
| RegularDpfRun.OpenedWord | libOTe/libOTe/Dpf/RegularDpf.h:393-430 | multiplying and opening gives both parties the word for their summed children |
| RegularDpfRun.ShareWords | libOTe/libOTe/Dpf/RegularDpf.h:393-431 | one round for all trees: refused exactly when the pool does not hold a transfer for every tree, else both hold the same word for every tree and one transfer to a tree is used |
| RegularDpfRun.SummedWord | libOTe/libOTe/Dpf/RegularDpf.h:393-431 | the interactively opened word is the dealer's |
| RegularDpfRun.RunLevels | libOTe/libOTe/Dpf/RegularDpf.h:367-545 | all levels of a list of trees on one transfer pool: refused exactly when the pool holds fewer than n * depth; else the words of every tree are the dealer's and both parties stand at the last level |
| RegularDpfRun.SummedGamma | libOTe/libOTe/Dpf/RegularDpf.h:550-617 | the opened leaf sums give the dealer's leaf correction |
| RegularDpfRun.ColumnsEvaluate | libOTe/libOTe/Dpf/RegularDpf.h:676-774 | one column: for every domain, point, value and pair of roots the two evaluations are shares of the point function |
| RegularDpfRun.KeysEvaluate | libOTe/libOTe/Dpf/RegularDpf.h:676-774 | for every domain of at least two, every list of points and values (or none), evaluating the two keys gives shares of every point function of the list |
| RegularDpfRun.EvaluatesMeans | libOTe/libOTe/Dpf/RegularDpf.h:554-673 | one output of a key: the leaf value of the last seed, corrected where its low bit is set, and that bit in all 128 places |
| RegularDpfRun.SharesMean | libOTe/libOTe/Dpf/RegularDpf.h:676-774 | what shares are, bit by bit: the value and a set tag at alpha, equal values and tags elsewhere |
| RegularDpfRun.ExpandShared | libOTe/libOTe/Dpf/RegularDpf.h:265-673 | interactive expansion of a list: refused exactly on lists of a wrong size or too few transfers; otherwise the outputs are evaluations of the two keys, and shares of every point function at the XOR of the point shares |
| RegularDpfRun.GenerateShared | libOTe/libOTe/Dpf/RegularDpf.h:265-673 | interactive key generation for a list yields the dealer's two keys, whole-list seeds, words and leaf corrections |
| RegularDpfRun.DealerChecks | libOTe/libOTe/Dpf/RegularDpf.h:736-741 | the dealer's sanity checks never fail |
| RegularDpfRun.DealTree | libOTe/libOTe/Dpf/RegularDpf.h:706-768 | the path-only loop of one tree yields the specified words and leaf correction and never throws |
| RegularDpfRun.DealerKeys | libOTe/libOTe/Dpf/RegularDpf.h:676-774 | the loop over the list: refused exactly when values are given and their number is not that of the points; otherwise the specified two keys |
| RegularDpfRun.BothKeyGenerations | libOTe/libOTe/Dpf/RegularDpf.h:367-774 | for every domain, every nonempty list of points and values: accepted exactly when transfers are set and n * depth are left, and then the interactive keys equal the dealt ones, which are those that evaluate to shares |
| RegularDpfRun.ExpandDealt | libOTe/libOTe/Dpf/RegularDpf.h:776-787 | expanding dealt keys gives shares of every point function of the list |
| TernaryDpf.NewParty | libOTe/libOTe/Dpf/TernaryDpf.h:43-60 | refused exactly for a party index above one, an empty domain or an empty list of points |
| TernaryDpf.Party.SetBaseOts | libOTe/libOTe/Dpf/TernaryDpf.h:624-646 | accepts exactly 2 * depth transfers to a point in each direction |
| TernaryDpf.Party.PointValid | libOTe/libOTe/Dpf/TernaryDpf.h:128-139 | accepts exactly the shares whose first depth two-bit digits are below three and whose other digits are zero |
| TernaryDpf.Party.PointsValid | libOTe/libOTe/Dpf/TernaryDpf.h:128-139 | the whole list is accepted exactly when every share is |
| TernaryDpf.TransferredKey | libOTe/libOTe/Dpf/TernaryDpf.h:455-469 | the two one-of-two transfers hand over exactly the key of the receiver's digit |
| TernaryDpf.ShareMeans | libOTe/libOTe/Dpf/TernaryDpf.h:471-542 | for all nine digit pairs a share is both masks, the party's sums, and the other's draw at the summed digit |
| TernaryDpf.OpenedReveals | libOTe/libOTe/Dpf/TernaryDpf.h:548-555 | the opened word is Z_j off the summed digit and an odd shift of Z there |
| TernaryDpf.CorrectionRound | libOTe/libOTe/Dpf/TernaryDpf.h:420-558 | one round of a list for all digit shares and draws: tree k uses the transfers at otIdx + 2k and 2k + 1, both hold the same words, and each reveals Z_j off the path and Z_alpha XOR an odd block on it |
| TernaryDpf.LevelCorrects | libOTe/libOTe/Dpf/TernaryDpf.h:235-289 | such a word makes the two off-path children equal and the path tags opposite |
| TernaryDpf.SeedsWritten | libOTe/libOTe/Dpf/TernaryDpf.h:235-289 | the corrected seeds of every level, written out: child j is g.child of the parent at j, XORed with entry j of the word where the low bit of the parent is set |
| TernaryDpf.SumsDifference | libOTe/libOTe/Dpf/TernaryDpf.h:223-289 | whole-level sums differ by the path children alone |
| TernaryDpf.Party.Expand | libOTe/libOTe/Dpf/TernaryDpf.h:235-290 | one level in place: tags, nine children to a parent, three sums |
| TernaryDpf.Party.LastLayer | libOTe/libOTe/Dpf/TernaryDpf.h:302-344 | for every tree leaf values and tags of the rows below the domain, and their sum |
| TernaryDpfRun.RunLevels | libOTe/libOTe/Dpf/TernaryDpf.h:206-291 | all levels of a list, for any draws, on one pool of transfers |
| TernaryDpfRun.WordsMean | libOTe/libOTe/Dpf/TernaryDpf.h:420-558 | every word, entry by entry: the XOR of both parties' sums, shifted at the summed trit by the two draws |
| TernaryDpfRun.ExpandShared | libOTe/libOTe/Dpf/TernaryDpf.h:79-417 | for a list of points: refused exactly on lists of a wrong size or a malformed share (outside the trivial domain); otherwise shares of every point function at the trit-wise mod-3 sums, and each output is g.leaf of the last seed, corrected where its low bit is set; in domain one the outputs are stated outright |
| TernaryDpfRun.SharesMean | libOTe/libOTe/Dpf/TernaryDpf.h:79-417 | what shares are, bit by bit |
| SparseTree.Partition | libOTe/libOTe/Dpf/SparseDpf.h:139-164 | the search loop computes the specified split |
| SparseTree.PartitionSplits | libOTe/libOTe/Dpf/SparseDpf.h:139-164 | it finds the highest varying bit of a sorted range, zeros before ones, and a lone point gives level zero |
| SparseTree.HalvesSplit | libOTe/libOTe/Dpf/SparseDpf.h:308-317 | both halves split strictly below |
| SparseTree.CorrectPair | libOTe/libOTe/Dpf/SparseDpf.h:431-441 | a waiting node becomes equal off the path and gets opposite tags on it, however many levels the path skips |
| SparseTree.ExpandOff | libOTe/libOTe/Dpf/SparseDpf.h:446-466 | expanding an off-path range keeps the invariant |
| SparseTree.ExpandOn | libOTe/libOTe/Dpf/SparseDpf.h:446-466 | expanding the path range keeps it and makes one half the new path range |
| SparseTree.StepBoth | libOTe/libOTe/Dpf/SparseDpf.h:429-467 | every processed node keeps the frontier invariant of the two tries |
| SparseTree.SetWord | libOTe/libOTe/Dpf/SparseDpf.h:395-416 | a revealed word extends the known levels |
| SparseTree.SetUnused | libOTe/libOTe/Dpf/SparseDpf.h:410-415 | a word opened at a level that one tree does not use disturbs nothing in that tree |
| SparseTree.SkipWord | libOTe/libOTe/Dpf/SparseDpf.h:375-376 | random sums at an unused level disturb nothing |
| SparseEval.WalkWritten | libOTe/libOTe/Dpf/SparseDpf.h:424-468 | the reference for one party, written out: the walk of a point down its bits, unchanged where no other point with the same higher bits differs, expanded and corrected where one does |
| SparseEval.SplitWritten | libOTe/libOTe/Dpf/SparseDpf.h:139-164 | where a walk expands, in plain arithmetic on the points |
| SparseEval.StepOne | libOTe/libOTe/Dpf/SparseDpf.h:429-467 | processing a node keeps every waiting node at the uncorrected walk of its points |
| SparseEval.AllDone | libOTe/libOTe/Dpf/SparseDpf.h:471-495 | at the end value and tag of every point are the end of its walk |
| SparseDpf.Party.DenseBins | libOTe/libOTe/Dpf/SparseDpf.h:290-327 | the bins are worked off in order, lone points taking the dense seed |
| SparseDpf.Party.SparseStart | libOTe/libOTe/Dpf/SparseDpf.h:331-357 | the root of every row split with two random seeds |
| SparseDpf.Party.FillLevel | libOTe/libOTe/Dpf/SparseDpf.h:371-378 | trees that do not use a level take random sums, and the level is used exactly if some tree uses it |
| SparseDpf.Party.Nodes | libOTe/libOTe/Dpf/SparseDpf.h:424-468 | all nodes of a level, corrected, expanded and queued |
| SparseDpf.Party.CollectLeaves | libOTe/libOTe/Dpf/SparseDpf.h:471-495 | for every tree leaf values and tags at their points, and the gamma sum |
| SparseDpfRun.OpenedWord | libOTe/libOTe/Dpf/SparseDpf.h:380-405 | what the multiplication and the two reveals open to |
| SparseDpfRun.OpenWords | libOTe/libOTe/Dpf/SparseDpf.h:380-416 | one multiplication for all trees: every tree that uses the level gets its word, in the others the invariant stays |
| SparseDpfRun.RevealLevel | libOTe/libOTe/Dpf/SparseDpf.h:361-416 | one level of a list: a transfer to a tree is used exactly if some tree uses the level |
| SparseDpfRun.RunLevels | libOTe/libOTe/Dpf/SparseDpf.h:361-469 | the descending loop brings every tree to level zero with every word known and the invariant intact, on at most n * depth transfers |
| SparseDpfRun.LeafBoth | libOTe/libOTe/Dpf/SparseDpf.h:471-495 | leaves agree off alpha, and the gamma sums differ by alpha's leaf |
| SparseDpfRun.ExpandSparse | libOTe/libOTe/Dpf/SparseDpf.h:230-512 | without a dense tree, for a list of sorted duplicate-free sets of at least two points holding their alphas: refused exactly when the numbers of points and rows differ; otherwise value and tag one at every alpha, zero elsewhere, and every output of a party is the end of its point's walk, corrected where the tag is one |
| SparseDpfRun.ExpandDense | libOTe/libOTe/Dpf/SparseDpf.h:230-512 | over dense trees, for a list of sorted duplicate-free sets holding their alphas: refused exactly on unequal numbers or too few transfers; tag one at alpha, zero elsewhere, and alpha opens to its value if and only if its bin holds another point or the leaves of the bin's two dense seeds collide; every output is the end of its point's walk from the dense leaf, corrected where the tag is one |
| SparseDpfRun.TreeOpensMeans | libOTe/libOTe/Dpf/SparseDpf.h:230-512 | the shares of one dense tree point by point, and the condition in terms of the points and the dense values |
| SparseDpfRun.DifferenceOfLeaves | libOTe/libOTe/Dpf/SparseDpf.h:299-305 | for every expansion the shift of a lone point is the difference of the leaf values of two seeds with opposite low bits, and vanishes exactly if they collide |
| SparseDpfRun.DistinctLeavesDiffer | libOTe/libOTe/Dpf/SparseDpf.h:299-305 | without colliding leaves no lone point of any domain, roots or bin opens to its value |
| SparseDpfRun.LoneBinFails | libOTe/libOTe/Dpf/SparseDpf.h:299-305 | for every leaf function that is not constant, concrete roots on which a lone point does not open to its value |
| MillerRabin.Power | libOTe/libOTe/Tools/Tools.cpp:27-43 | x^y mod p with no 64-bit wrap for every modulus up to 2^32; the zeroth power modulo one comes out as one |
| MillerRabin.MillerTest | libOTe/libOTe/Tools/Tools.cpp:50-78 | true exactly for a base that passes: a^d = 1 or some a^(d * 2^s) = -1, s up to r |
| MillerRabin.PrimeAccepted | libOTe/libOTe/Tools/Tools.cpp:50-78 | every base passes for a prime |
| MillerRabin.PrimePasses | libOTe/libOTe/Tools/Tools.cpp:83-100 | a prime passes all rounds for any draws |
| MillerRabin.PassesIff | libOTe/libOTe/Tools/Tools.cpp:83-100 | passing, written out on n - 1 = d * 2^r with odd d |
| MillerRabin.IsPrimeTest | libOTe/libOTe/Tools/Tools.cpp:83-100 | for n above four with n - 1 = d * 2^r, d odd: true exactly if every base a = 2 + draw % (n - 4) of the k draws has a^d = 1 or some a^(d * 2^s) = -1, s up to r; then also a^(n-1) is 1 or -1 for each, and no prime below 2^32 is rejected |
| MillerRabin.NextPrime | libOTe/libOTe/Tools/Tools.cpp:109-116 | with a prime q at or above n below 2^32 the search ends by q: every number tried fails its own k draws, the result passes the last k, every base drawn for it has a^(r-1) = 1 or -1 modulo r, and no prime is stepped past |
| QuasiCyclic.ShiftedPair | libOTe/libOTe/Tools/QuasiCyclicCode.h:74-83 | two lane shifts against each other are one word of the shifted buffer |
| QuasiCyclic.BitShiftXor | libOTe/libOTe/Tools/QuasiCyclicCode.h:60-145 | for every shift 0 to 127 a truncated right shift XORed in place; larger shifts are refused |
| QuasiCyclic.ShiftedWritten | libOTe/libOTe/Tools/QuasiCyclicCode.h:60-145 | bit t of word j takes in bit 64j + t + shift of the input, if there is one |
| QuasiCyclic.Modp | libOTe/libOTe/Tools/QuasiCyclicCode.h:147-192 | for every p at least 1 and every input length: bit k below p is the XOR of bit i*p + k over all i, later bits are zero; short buffers are refused |
| QuasiCyclic.FoldedParity | libOTe/libOTe/Tools/QuasiCyclicCode.h:147-192 | the folded bit is the parity of the number of chunks that set it |
| Partitions.GenerateComplete | params-scripts/dpub.py:4-13 | a list is yielded if and only if it is a partition with parts up to the bound |
| Partitions.GenerateDistinct | params-scripts/dpub.py:4-13 | nothing is yielded twice |
| Partitions.GenerateDescends | params-scripts/dpub.py:11-13 | first parts never grow |
| Partitions.ComputeCMax | params-scripts/dpub.py:15-21 | the loop, the sort and the prefix product give the largest product that any k entries of the list have |
| Partitions.SortedCounts | params-scripts/dpub.py:20 | sorting orders the entries and keeps how many reach each threshold |
| Partitions.CountsDominate | params-scripts/dpub.py:15-21 | larger counts at every threshold give a larger product of the k largest |
| Partitions.LookAhead | params-scripts/dpub.py:34-40 | the loop builds full parts and the rest |
| Partitions.GreedyWritten | params-scripts/dpub.py:34-40 | n div m parts of size m, and the rest if there is one |
| Partitions.GreedyMaximises | params-scripts/dpub.py:33-43 | the look-ahead partition maximises C_max over all partitions with parts up to its bound, for every k |
| Deltas.WeightCounts | params-scripts/dpub.py:46-55 | the weight of a partition is the number of words of length l_com over epsilon symbols whose occurrence counts, sorted, are the partition |
| Deltas.WeightExact | params-scripts/dpub.py:46-55 | its integer divisions leave no remainder: weight * part factorials * multiplicity factorials = perm(epsilon, parts) * l_com! |
| Deltas.ShapeMeans | params-scripts/dpub.py:46-55 | the shape of a word is its positive occurrence counts in descending order |
| Deltas.TotalIsCount | params-scripts/dpub.py:23-59 | for every threshold the exhaustive total is the number of words whose C_max beats it |
| Deltas.TotalOfAll | params-scripts/dpub.py:23-59 | below every product the weights of all partitions add up to epsilon^l_com |
| Deltas.ComputeDeltaPubSize | params-scripts/dpub.py:23-59 | for every threshold, epsilon and k the total with the early stop is the exhaustive total, and the number of words that beat the threshold |
| Deltas.DeltaPubSize | params-scripts/dpub.py:23-59 | the same with the threshold of the script, a fraction of perm(l_com, k) |

## Left out

- Sockets, coroutines, the command line, profiling and the rest of libOTe: messages are values passed between methods.
- Hash functions, seed expansion and random generators: arbitrary functions or universally quantified inputs. No claim on probability, secrecy or distribution.
- Base transfers, their extension and the punctured PRF: assumed through their output relation, seeds equal off the puncture and received messages chosen by the choice bits.
- Primality of 2^255 - 19 is a hypothesis of the theorems that need it, not proved.
- Limb-level composition of the protocol layer: ZKP.h lines 187-197 add unreduced products whose worst case exceeds the bound under which `mul` is exact, so the protocol is modelled on integers modulo p and the limb theorems stand for each operation on its own.
- Packing in the protocol layer is taken as writing the canonical residue; the limb model states exactly where `fe25519_pack` does not (Pack).
- FastResidue.PresidueEps: stated on residues; on limbs the freeze behind the last product reaches them exactly while limb 31 is below 128 (Fe25519Forms.Freeze).
- `fe25519::operator==` (field25519/fe25519.cpp lines 446-450) freezes an unreduced difference, so no equality contract holds of it; the loops resting on it (OPRF.h lines 127-142 and 453-458) are left out, and offsets are arbitrary.
- Transcript bytes and the final hash: OPRF.h line 361 keeps four bytes for a five-byte pack; the end-to-end theorem is stated on the symbols, after the 32-bit narrowing of line 371.
- OprfRun.Run: asks for multipliers inside 32 limbs; the sizes 10, 53 and 79 are the fixed layout of ZKP.h.
- SmallSetVole.Send: the AVX2 path, which line 12 of smallSetVoleFast.h selects unconditionally, lane by lane; the portable path is compiled out and not modelled.
- SmallSetVole.Receive: the same.
- RegularDpf.Party: the three rows hold exactly one level each; the larger uninitialised buffers behind them are not modelled. Saturated blocks are blocks with one repeated bit.
- SparseDpf: rows may differ in length where the source has a matrix; `init` and the split of the base transfers between the dense tree and the levels (lines 31-90); each multiplier is given its own. The values revealed on lines 398-399 are not used afterwards and are not modelled.
- TernaryDpf: values are blocks under XOR, as in the GF(2) contexts; contexts with another addition are not modelled.
- MillerRabin.NextPrime: states nothing for inputs beyond the last prime below 2^32, where 64-bit products wrap.
- QuasiCyclic: the alignment test on the input pointer; a lane shift by 64 is taken as zero.
- Deltas.ComputeDeltaPubSize: the empty case l_com = 0, on which the script fails, is excluded; thresholds are real numbers, not floating-point ones.
- Legendre symbols, square roots, dual encoding, linear codes, and the floating-point parameter selection: they would add only easier members or rest on code outside the repository.
