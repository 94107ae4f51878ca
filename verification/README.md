# FlaconVault: verified models

Dafny models of the stateful protocols, codecs and parsers of FlaconVault, with proofs of what they promise over whole
runs and over all inputs. `dafny verify dfyconfig.toml` checks everything.

Code that the repository writes as loops and updated fields appears as methods and classes that are proved equal to
functions on values; the properties are lemmas about those functions. What each function computes is also stated apart
from it, in numbers: exact conditions of acceptance, effects, equations, positions and thresholds.

## What is modelled

**Images** (`Bits`, `Huffman`, `BitReader`, `ZigZag`, `JpegBlock`, `JpegGeometry`, `JpegScan`, `JpegDecoder`, `Png`).
The baseline JPEG decoder is proved to invert an encoder written after ITU-T T.81: canonical Huffman codes (Annex C), byte
stuffing, magnitude coding and run lengths (section F.1.2), the zig-zag order, DC prediction and restart intervals. The
32-bit arithmetic of JavaScript's bit operators is written out. `JpegGeometry` shows that the MCU loop covers each block
once and that every write and sample stays in its plane. `Png` inverts the filters of RFC 2083 section 6 and shows both
that the decoder reads every standard file and that it inverts the repository's own encoder.

**Taps and nonces** (`TapProtocol`). Every endpoint is one transaction over seals, tap rows, nonces and events. The main
result is about arbitrary runs: one acceptance and at most one signature per physical tap, one use per nonce.

**Passport grades** (`PassportGrade`). The program folds scans in the order of recording; the verifier confirms their
events in any order, gives some up and recovers them, and mixes in account reads of any age.

**Escrow** (`Escrow`, `Sums`). All instructions with their account checks as far as they decide who may do what, tokens,
vaults and asset custody, and over every run: conservation, one payment per listing, and always a way out.

**Escrow mirror** (`EscrowMirror`). The verifier's rows of listings and outcomes with placeholder rows and counters, over
runs with any number of order accounts.

**Concurrency and scheduling** (`RegistryCache`, `ArchiveQueue`, `RateLimiter`). Interleavings of any number of threads
over single lock operations; fairness of the archiving queue by a decreasing measure; token buckets over real numbers.

**Parsers and ciphers** (`Base58`, `LogFrames`, `CanonicalJson`, `Lrp`). Round trips and exact conditions.

**Indicators** (`HeatStrip`). Inference over the heat strip and voting over frames.

## Where the code and its documentation differ

- Program logs: the comment at apps/verify/fv/txverify.py:240-244 takes frames as the runtime's alone. A program that logs
  a text starting with `success`, `failed` or `invoke [n]` writes a line that matches; `LogFrames.LogHarmlessIff` gives
  the exact set of texts.
- Stale reads: apps/verify/fv/reconcile.py:276-279 compares counts, which rejects every stale read only while the confirmed
  scans have no hole; a hole takes a recorded scan whose event timed out. `PassportGrade.FreshIff`, `RunAgreesIff` and
  `RunAgreesAlwaysIff` give the exact conditions, `StaleReadMisleads` a run that fails.
- Several seals: the verifier's notion of "newest" (signing time) agrees with the program's (order of recording) only under
  the condition of `PassportGrade.AnyOrder`, which is exact (`AgreesAlwaysIff`, `TwoSealsDisagree`).
- Escrow mirror: a listing sold and closed between two reads overwrites the outcome of the listing before it
  (`EscrowMirror.UnseenListingOverwrites`), and a read taken before the buyer reserved, when it absorbs its own placeholder,
  loses the buyer (`EarlyReadLosesBuyer`); a stale read can also take a later listing's outcome (`StaleReadTakesOutcome`).
  `ReadKeepsIff` and `OutcomeKeepsIff` give the exact conditions, which replace "a read is at most one listing behind".
- Vault balance: third parties can send tokens to an open vault, so it holds the price exactly when nobody did
  (`Escrow.VaultHoldsPriceIff`, `GiftedVault`).
- `RateLimiter` with `max_keys` below 2 outgrows its limit (`RateLimiter.SizeBoundIff`), and a key whose bucket is dropped
  with the oldest half starts full again (`WindowBound`, `DropsIff`,
  `DroppedBucketBreaksBound`).
- `RegistryCache`: an exception that the chain read does not catch sets no backoff
  (`RegistryCache.RaisedReadsAreNotSpaced`); spacing holds for all other reads.
- `remove_pad` takes a block of zeros for the empty text (`Lrp.RemovePadIff`).
- The archiving bound proved is floor((n-1)(a+1)/limit) + 1 cycles, which is at most the ceiling form.

## Model

| member | source | states |
|---|---|---|
| Huffman.AnnexC | packages/vision/scripts/image-io.ts:31-40 | the running code of Annex C equals the closed form (first code of the length plus rank within the length) that the decoding table is built from, for every counts table |
| Huffman.CodesFit | packages/vision/scripts/image-io.ts:34-38 | under Kraft's inequality the codes of each length fit into that many bits |
| Huffman.NoOverflow | packages/vision/scripts/image-io.ts:33-38 | for any counts, Kraft or not, `code <<= 1` never leaves 31 bits |
| Huffman.MatchCode | packages/vision/scripts/image-io.ts:67-74 | table lookup finds symbol k from the code word of k |
| Huffman.MatchedIsCode | packages/vision/scripts/image-io.ts:67-74 | conversely, whatever lookup accepts is exactly the code word of the symbol it returns |
| Huffman.PrefixFree | packages/vision/scripts/image-io.ts:31-40 | under Kraft, no code word is a prefix of another one |
| Huffman.Build | packages/vision/scripts/image-io.ts:31-40 | buildHuffman: for every counts table and whatever values follow it, the loop leaves for every length the entry that the lookup lemmas need |
| EntropyBits.ReadSegment | packages/vision/scripts/image-io.ts:48-61 | the reader inverts packing into bytes, padding and byte stuffing for every bit string, and stops right behind the segment |
| EntropyBits.NextSymbolIff | packages/vision/scripts/image-io.ts:67-74 | decode returns k if and only if the code word of k comes next, and then consumes exactly its bits |
| EntropyBits.SymbolsOfCodes | packages/vision/scripts/image-io.ts:67-74 | decoding the concatenated code words of any symbol sequence returns the sequence and consumes exactly those bits |
| EntropyBits.BitReader.Bit | packages/vision/scripts/image-io.ts:48-61 | the in-place reader takes the same step as the cursor on values that ReadSegment is about: stuffed bytes skipped, markers fed as zeros and not consumed |
| EntropyBits.BitReader.Receive | packages/vision/scripts/image-io.ts:62-66 | n bits as a 32-bit number, most significant first |
| EntropyBits.BitReader.Decode | packages/vision/scripts/image-io.ts:67-74 | the decoding loop over maxcode finds the symbol the code of Annex C assigns, or reports the thrown error; a value missing from the table acts as symbol 0 |
| EntropyBits.BitReader.Restart | packages/vision/scripts/image-io.ts:76-80 | drops the rest of the byte and stops behind the next RSTn marker |
| EntropyBits.AfterRestartIs | packages/vision/scripts/image-io.ts:76-80 | the position it stops at is behind the first 0xFF 0xD0 to 0xFF 0xD7, or past the end without one |
| EntropyBits.NothingLeft | packages/vision/scripts/image-io.ts:48-61 | at a marker the reader goes on with zeros and does not move; past the end it goes on with zeros |
| ZigZagOrder.NaturalPermutes | packages/vision/scripts/image-io.ts:20-23 | the NATURAL table is a permutation of the 64 positions |
| ZigZagOrder.NaturalIsZigZag | packages/vision/scripts/image-io.ts:20-23 | and it is the zig-zag walk of T.81 figure 5 |
| JpegBlock.ExtendInverts | packages/vision/scripts/image-io.ts:83 | extend inverts the magnitude bits of section F.1.2.1 of T.81 for every nonzero value of up to 16 bits |
| JpegBlock.AcInverts | packages/vision/scripts/image-io.ts:172-180 | the AC loop inverts run-length coding with ZRL and EOB from any coefficient on, storing each value at its natural position |
| JpegBlock.BlockInverts | packages/vision/scripts/image-io.ts:166-180 | decoding the bits of a coded block recovers its dequantised coefficients and the DC prediction, whatever follows |
| JpegGeometry.VisitedExactlyOnce | packages/vision/scripts/image-io.ts:183-197 | every block of the scan belongs to exactly one MCU and occurs there once, interleaved or not |
| JpegGeometry.CoveredAloneIff | packages/vision/scripts/image-io.ts:183-188 | a scan of one component covers block (col, row) if and only if 8 * col * hmax < width * h and 8 * row * vmax < height * v: it contains a sample of the own extent of the component |
| JpegGeometry.CoveredTogetherIff | packages/vision/scripts/image-io.ts:134-138 | a scan of several components covers a block if and only if its MCU, at block col / h and row / v, contains a pixel of the image |
| JpegGeometry.AloneInOrder | packages/vision/scripts/image-io.ts:188-195 | MCU m of a scan of one component is the block at m = row * w + col, where w is the number of columns with 8 * col * hmax < width * h |
| JpegGeometry.TogetherInOrder | packages/vision/scripts/image-io.ts:188-196 | MCU m of a scan of several components holds exactly the blocks at m = (row / v) * w + col / h, where w is the number of MCU columns with a pixel |
| JpegGeometry.McuOrder | packages/vision/scripts/image-io.ts:196 | within an MCU the components follow each other, each row by row |
| JpegGeometry.BlockInPlane | packages/vision/scripts/image-io.ts:134-138 | all 64 writes of a visited block stay inside the plane of its component |
| JpegGeometry.BlocksDisjoint | packages/vision/scripts/image-io.ts:213-220 | no two blocks of a component share a cell |
| JpegGeometry.SampleVisited | packages/vision/scripts/image-io.ts:225 | every pixel samples a cell inside the plane that lies in a visited block |
| JpegGeometry.SampleScales | packages/vision/scripts/image-io.ts:225 | the cell sampled is the pixel scaled by h / hmax and v / vmax and rounded down, and the pixel itself at full resolution |
| JpegGeometry.SampleInPlaneIff | packages/vision/scripts/image-io.ts:130-138 | samples lie inside the plane exactly when no sampling factor is 0 (the parser accepts 0) |
| JpegScan.ScanInverts | packages/vision/scripts/image-io.ts:189-197 | from any MCU on, decoding the stream of the encoder recovers all remaining blocks across restart intervals |
| JpegScan.ScanRoundTrip | packages/vision/scripts/image-io.ts:162-202 | for any components, sampling factors, tables and restart interval, decoding an encoded scan gives every block in coding order with exactly the encoded coefficients, and finds the marker behind the scan |
| JpegScan.EveryBlockOnce | packages/vision/scripts/image-io.ts:184-197 | what is decoded are distinct blocks, exactly those the scan covers, each with the coefficients that were encoded |
| JpegScan.BoundaryIff | packages/vision/scripts/image-io.ts:189-193 | an interval begins exactly at the positive multiples of a positive restart interval |
| JpegScan.RestartedIs | packages/vision/scripts/image-io.ts:189-193 | there every prediction becomes 0 and decoding goes on behind the marker; elsewhere nothing changes |
| JpegScan.NextMarkerIs | packages/vision/scripts/image-io.ts:198-201 | the scan ends at the first 0xFF behind its data that neither a 0 nor the second byte of an RSTn follows |
| JpegDecoder.DecodeAc | packages/vision/scripts/image-io.ts:172-180 | the loop on the coefficient buffer computes the function that AcInverts is about |
| JpegDecoder.DecodeOne | packages/vision/scripts/image-io.ts:166-181 | the closure `block` in place: buffer, prediction and reader end as in BlockInverts |
| JpegDecoder.DecodeMcu | packages/vision/scripts/image-io.ts:195-196 | the nested component, row and column loops decode the blocks of the MCU in the order of JpegGeometry |
| JpegDecoder.DecodeScan | packages/vision/scripts/image-io.ts:162-202 | decodeScan as it runs computes the function that ScanRoundTrip inverts, error and end position included, also for a component named twice |
| Png.PaethIsNearest | packages/vision/scripts/image-io.ts:274 | the predictor is the neighbour nearest to a + b - c, ties going to a, then b |
| Png.RowsInvert | packages/vision/scripts/image-io.ts:265-277 | reconstruction inverts RFC 2083 filtering for every image and every choice of filters per row |
| Png.FiltersUndone | packages/vision/scripts/image-io.ts:263-276 | every byte of the reconstructed image, for any data: filter 1 adds the left byte, 2 the one above, 3 half of their sum rounded down, 4 the Paeth neighbour, any other nothing, modulo 256, absent neighbours as 0 (section 6 of RFC 2083) |
| Png.Unfilter | packages/vision/scripts/image-io.ts:264-277 | the nested loops on the pixel buffer compute that reconstruction, missing bytes read as 0 |
| Png.ReadChunks | packages/vision/scripts/image-io.ts:251-259 | the chunk loop computes the fold over chunks, truncated headers included |
| Png.ChunksInvert | packages/vision/scripts/image-io.ts:253-259 | the loop reads back every chunk list that ends in IEND, whatever follows it |
| Png.RgbaIsIdentity | packages/vision/scripts/image-io.ts:279-285 | expansion leaves four-channel pixels as they are |
| Png.Expand | packages/vision/scripts/image-io.ts:278-285 | the expansion loop writes each pixel as its colour type prescribes |
| Png.DecodedPixel | packages/vision/scripts/image-io.ts:278-285 | the four bytes of each pixel by colour type: grey repeated, alpha kept or 255 |
| Png.DecodesIff | packages/vision/scripts/image-io.ts:248-262 | an image is decoded exactly with the signature, readable chunks, eight bits, a known colour type, no interlacing and data that inflate |
| Png.DecodePng | packages/vision/scripts/image-io.ts:248-287 | the imperative decoder computes the function on values, errors included |
| Png.DecodesAnyFile | packages/vision/scripts/image-io.ts:248-287 | every standard file of every supported colour type, filter choice and chunk split decodes to the image it shows |
| Png.EncodePng | packages/vision/scripts/image-io.ts:289-306 | the imperative encoder computes the function on values |
| Png.EncodeDecode | packages/vision/scripts/image-io.ts:248-306 | decodePng inverts encodePng on every image, given that inflate inverts deflate |
| TapProtocol.LastCounterUnregistered | apps/verify/fv/db.py:194-200 | the greatest counter remembered for a chip that has no seal, over all tap rows |
| TapProtocol.BoundsNeverFall | apps/verify/fv/db.py:171-200 | whatever the request, no chip's counter bound falls, so a registration never reopens a tap and no purge does |
| TapProtocol.RunIsSafe | apps/verify/fv/routes_api.py:207-317 | over every run of /t, /api/verify, sessions, registrations, death reports, refreshes and purges, rolled-back requests included: no (chip, counter) is accepted twice, none is signed twice, no nonce is used twice, and nothing done before the run is repeated |
| TapProtocol.RunAppends | apps/verify/fv/routes_api.py:207-317 | each request of a run is answered in, and leads on from, the state that the requests before it left |
| TapProtocol.RunNeverFalls | apps/verify/fv/db.py:171-191 | over a run no seal disappears, no seal counter falls and no bound falls |
| TapProtocol.EmptyIsSafe | apps/verify/fv/service.py:134-155 | the empty database satisfies the invariant that RunIsSafe starts from |
| TapProtocol.LandingAcceptsIff | apps/verify/fv/routes_tag.py:46-79 | /t accepts a tap exactly when it is genuine, above the chip's bound, and a drawn row id is free |
| TapProtocol.LandedTapCanBeSigned | apps/verify/fv/service.py:183-210 | liveness: a tap that /t answered VALID can be signed through its token within the window with an open nonce |
| TapProtocol.SignedIff | apps/verify/fv/routes_api.py:207-317 | /api/verify signs (chip, counter, nonce) if and only if the nonce exists, is unused and unexpired, the tap is genuine and above the counter of the seal or adoptable with its token within 180 s, the seal is not dead, the expected serial, if any, is its own, and a drawn id is free |
| TapProtocol.SignedEffect | apps/verify/fv/routes_api.py:272-317 | a signature uses up its nonce and adds its event and tap row; a direct tap raises the counter, an adopted one is marked |
| TapProtocol.LandingAnswers | apps/verify/fv/routes_tag.py:46-79 | what /t and the preview answer for every tap, and when /t fails and changes nothing |
| TapProtocol.LandingPurges | apps/verify/fv/db.py:727-729 | a purge deletes exactly the INVALID rows from before the given time |
| TapProtocol.VerifyAnswers | apps/verify/fv/routes_api.py:207-317 | what /api/verify answers for every request; an error, or a nonce that is not open, leaves everything as it was, and without a signature nonces and events stay |
| TapProtocol.DeadStays | apps/verify/fv/db.py:171-191 | a dead seal stays dead under every request, and marking, a chain read or a registration that says so makes it dead |
| TapProtocol.DeadNeverSigned | apps/verify/fv/routes_api.py:268-272 | no scan of a dead seal is signed in any run |
| TapProtocol.AttachSeeds | apps/verify/fv/db.py:171-183 | the counter of a registered seal is the greatest of the one given, the one stored and those of the remembered taps |
| TapProtocol.RefreshRaises | apps/verify/fv/db.py:185-191 | a chain read raises the counter and never lowers it |
| TapProtocol.SessionIff | apps/verify/fv/db.py:352-365 | a nonce that exists is not issued again; a session drops exactly used nonces after expiry and unused ones an hour later |
| TapProtocol.ReportIff | apps/verify/fv/routes_api.py:836-869 | a report is taken exactly with an open nonce and an allowed slot, and then uses up the nonce |
| TapProtocol.Verifier.CheckTap | apps/verify/fv/service.py:134-158 | with consume the counter advances exactly for an accepted tap; without, nothing changes |
| TapProtocol.Verifier.AdoptTap | apps/verify/fv/service.py:183-210 | adoption marks one unadopted VALID row of /t within the window and nothing else |
| TapProtocol.Verifier.TagLanding | apps/verify/fv/routes_tag.py:46-79 | the landing transaction step by step equals the atomic step of RunIsSafe |
| TapProtocol.Verifier.VerifyTap | apps/verify/fv/routes_api.py:207-317 | the verify transaction with its rollbacks equals the atomic step of RunIsSafe |
| TapProtocol.Verifier.UpsertSeal | apps/verify/fv/db.py:171-183 | a registration keeps the larger counter, the remembered taps included, and never revives a dead seal |
| TapProtocol.Verifier.ReportSealDead | apps/verify/fv/routes_api.py:836-869 | an accepted report uses up its nonce, a refused one leaves everything as it was |
| PassportGrade.RulesAgree | apps/verify/fv/proof.py:130-158 | the verifier and the program compute the same passport from the newest scan, whatever its codes |
| PassportGrade.FoldRank | programs/flacon/src/grade.rs:76-84 | the program reaches C or VOID exactly when some scan did |
| PassportGrade.FoldIs | programs/flacon/src/grade.rs:76-84 | after any scans, from their codes: VOID if the passport was or some tamper code is 1 or 2, else C if it was or some heat or humidity is 1, else A from fill 90, B from 60 and D below, by the last scan |
| PassportGrade.FillCounts | apps/verify/fv/db.py:255-272 | a confirmed fill grade counts unless a confirmed scan is newer: by counter on the same seal, else by signing time and then row id |
| PassportGrade.ConfirmedRank | apps/verify/fv/db.py:138-150 | so does the verifier, in any order of confirmation |
| PassportGrade.AnyOrder | apps/verify/fv/db.py:138-150 | for every order of confirmation the verifier ends with the passport the program folded in the order of recording, when the last recorded scan is also the newest by signing time |
| PassportGrade.OneSealDominates | programs/flacon/src/instructions/record_scan.rs:107-225 | that condition always holds for one seal; for several, when signing times follow the order of recording |
| PassportGrade.AgreesAlwaysIff | apps/verify/fv/db.py:255-272 | for scans on given seals, counters, times and rows: every order of confirmation ends with the program's passport, whatever the scans read, if and only if the last recorded scan is the newest |
| PassportGrade.TwoSealsDisagree | apps/verify/fv/db.py:255-272 | two scans of two seals, signed in one order and recorded in the other, that end with B on one side and D on the other |
| PassportGrade.StickyStays | apps/verify/fv/proof.py:144-175 | no late scan and no read of any age takes VOID or C away |
| PassportGrade.CurrentReadAgrees | apps/verify/fv/reconcile.py:262-285 | in every reachable state a read of the current account makes both passports equal, except while an event is pending, when it changes nothing |
| PassportGrade.EveryRun | apps/verify/fv/reconcile.py:141-164 | over every interleaving of signing, recording, death, giving up, confirmation and reads of any age: the invariant holds, sticky states stay, and the fill grade shown is that of the scan the last accepted change came from |
| PassportGrade.RunAgreesIff | apps/verify/fv/reconcile.py:262-285 | for every run, confirmations in any order and reads of any age mixed in: once all is confirmed the two passports are equal if and only if the program shows VOID or C, or the last accepted change shows the last scan's fill grade |
| PassportGrade.RunAgreesAlwaysIff | apps/verify/fv/reconcile.py:262-285 | for every schedule whose scans are all confirmed: it ends with both passports equal whatever the scans read, if and only if a seal died or the last accepted change stands at the last recorded scan |
| PassportGrade.FreshRunAgrees | apps/verify/fv/reconcile.py:262-285 | without stale reads taken for current they are equal, for any number of seals whose signing order is the order of recording |
| PassportGrade.RunOfOneSeal | apps/verify/fv/reconcile.py:262-285 | every run with one seal in which no stale read is taken for current ends, once all is confirmed in any order, with the verifier's passport equal to the program's |
| PassportGrade.FreshIff | apps/verify/fv/reconcile.py:263-279 | with nothing pending, no read of any age is wrongly taken for current if and only if every scan recorded before a confirmed one is confirmed; otherwise the event of such a scan was given up |
| PassportGrade.NoneFailedIsFresh | apps/verify/fv/reconcile.py:242-263 | while no recorded scan's event is failed, no read is wrongly taken for current |
| PassportGrade.ReadsHarmlessIff | apps/verify/fv/reconcile.py:262-285 | with nothing pending and no sticky state, no read shows anything but the verifier's own fill grade or the current one if and only if the states after as many scans as are confirmed, or more, do not |
| PassportGrade.StaleReadMisleads | apps/verify/fv/reconcile.py:242-285 | a run through a timed-out event in which a stale read replaces D by the older A, and the late confirmation leaves it so: all confirmed, and the passports differ |
| PassportGrade.PassportRow.NewerConfirmedScanExists | apps/verify/fv/db.py:255-272 | the query answers whether a confirmed scan is newer than the event |
| PassportGrade.PassportRow.Confirm | apps/verify/fv/db.py:138-150 | confirming an event applies its grade as in AnyOrder, marks it, and keeps the row equal to the fold over its confirmations |
| PassportGrade.PassportRow.Refresh | apps/verify/fv/reconcile.py:262-285 | the refresh, skipped while an event is pending, changes the row as in CurrentReadAgrees |
| Escrow.EffectiveWindow | programs/escrow/src/rules.rs:30-32 | the allowed window (one hour to 60 days) nearest to the stored one; an allowed one is kept |
| Escrow.ElapsedIff | programs/escrow/src/rules.rs:30-42 | a window is over strictly after start plus its length, clamped to one hour and 60 days; past the clock range it is an error |
| Escrow.ListIff | programs/escrow/src/instructions/list.rs:44-98 | what a listing needs (a free id, a price, a passport that is not void, the right to sell) and what it stores |
| Escrow.DepositIff | programs/escrow/src/instructions/list.rs:101-148 | an asset is deposited exactly by its owner, the seller of a LISTED order, and once |
| Escrow.CancelIff | programs/escrow/src/instructions/list.rs:150-210 | a cancellation is the right of the seller while LISTED and returns a deposited asset to the seller |
| Escrow.ReserveIff | programs/escrow/src/instructions/reserve.rs:65-117 | a reservation needs a LISTED order of another party, the price the buyer saw, a passport that is not void and the funds, and moves exactly the price into the vault |
| Escrow.PreShipIff | programs/escrow/src/instructions/scans.rs:16-70 | the scan before shipping is taken exactly from the seller of a RESERVED order, for an own scan of a seal of the passport at most 600 s older than the reservation |
| Escrow.ReceiptIff | programs/escrow/src/instructions/scans.rs:128-176 | a receipt scan is taken exactly from the buyer of a SHIPPED order, for an own scan of a seal of the passport that is not older and, on the same seal, has a later counter; it becomes RECEIPT_SCANNED if and only if heat and humidity are equal and the fills differ by at most 5, and MISMATCH otherwise |
| Escrow.SettleIff | programs/escrow/src/instructions/settle.rs:17-91 | a settlement is accepted exactly for those who may (state, authority, window, seal); the whole vault goes to one party, the deposited asset to the other, and the order ends RELEASED or DISPUTE accordingly |
| Escrow.RefundAnswers | programs/escrow/src/rules.rs:70-99 | the reason a refund of a buyer is given for (dead seal, window over), or the error that forbids it, by state, seal and time |
| Escrow.StepConserves | programs/escrow/src/instructions/settle.rs:17-57 | no instruction creates or destroys USDC |
| Escrow.StepAt | programs/escrow/src/lib.rs:3-11 | every instruction keeps the books sound, moves each order along the diagram only, and pays only a listing that was not paid |
| Escrow.RunIsSound | programs/escrow/src/lib.rs:3-15 | over every run: a vault is open exactly while its order is funded and holds the price (plus gifts), deposited assets stay in custody, every listing pays once and to the party its final state says, and total USDC is constant |
| Escrow.EveryRunIsSound | programs/escrow/src/lib.rs:3-15 | the same from the program's start, for every run |
| Escrow.PaidForGood | programs/escrow/src/instructions/settle.rs:17-57 | a payment, once made, is never repeated or changed by the rest of the run |
| Escrow.VaultHoldsPriceIff | programs/escrow/src/instructions/reserve.rs:65-117 | the vault holds exactly the price if and only if no third party sent tokens to it |
| Escrow.GiftedVault | programs/escrow/src/instructions/reserve.rs:65-117 | list, reserve and a gift, after which the vault of a listing at 10 holds 11 |
| Escrow.SettlementShape | programs/escrow/src/instructions/settle.rs:134-200 | the seller is paid only from SHIPPED, RECEIPT_SCANNED or MISMATCH, the buyer never after a matching receipt scan |
| Escrow.SettlementNeeds | programs/escrow/src/instructions/settle.rs:234-385 | which authority, elapsed window or dead seal each settlement needs, by state and receiver, whichever instruction is used |
| Escrow.TimeoutsExclusive | programs/escrow/src/rules.rs:70-109 | buyer refund and seller release by timeout are never both open, and each is open exactly after its window, overflow excluded |
| Escrow.AlwaysAWayOut | programs/escrow/src/rules.rs:44-109 | in every sound state, 60 days after its step every funded order but a MISMATCH can be settled without the admin, and how it then ends |
| Escrow.MismatchNeedsAdmin | programs/escrow/src/instructions/settle.rs:337-385 | a MISMATCH ends by resolve of the admin alone |
| Escrow.Program.HandleReserve | programs/escrow/src/instructions/reserve.rs:65-117 | the handler on its mutable accounts equals the atomic step, and an error undoes everything |
| Escrow.Program.HandleRecordReceiptScan | programs/escrow/src/instructions/scans.rs:128-176 | the handler equals the atomic step: match, mismatch and each refusal |
| Escrow.Program.SettleOrder | programs/escrow/src/instructions/settle.rs:17-91 | draining the vault and returning the asset equals the atomic settlement, and is undone when the asset transfer fails |
| Escrow.Program.HandleDispute | programs/escrow/src/instructions/settle.rs:234-288 | the refund handler equals the atomic step for admin, buyer and everyone else |
| Escrow.Program.HandleResolve | programs/escrow/src/instructions/settle.rs:337-385 | the resolve handler equals the atomic step |
| EscrowMirror.FinalStaysFinal | apps/verify/fv/db.py:487-549 | whatever is read or recorded, a final row stays, and stays final |
| EscrowMirror.ReadKeepsIff | apps/verify/fv/db.py:487-508 | a true read of any age keeps the rows faithful (one row per recorded outcome, every row true) if and only if it absorbs no placeholder but that of its own listing, with the buyer known |
| EscrowMirror.OutcomeKeepsIff | apps/verify/fv/db.py:511-549 | a true outcome keeps the rows faithful if and only if its own listing was read with it or before, or no listing up to then is known |
| EscrowMirror.UnseenListingOverwrites | apps/verify/fv/db.py:511-549 | an outcome of a listing never read overwrites the final row of the listing before it |
| EscrowMirror.EarlyReadLosesBuyer | apps/verify/fv/db.py:487-508 | a placeholder absorbed by a read from before the buyer reserved keeps its outcome and loses its buyer |
| EscrowMirror.StaleReadTakesOutcome | apps/verify/fv/db.py:487-508 | a stale read of a cancelled listing takes the outcome of the listing after it |
| EscrowMirror.RunIsRight | apps/verify/fv/db.py:487-578 | over every run that is safe step by step (the exact conditions of ReadKeepsIff and OutcomeKeepsIff), for all accounts together and with the counters |
| EscrowMirror.InOrderIsSafe | apps/verify/fv/db.py:511-549 | a condition on the schedule alone is enough: each listing is read, or comes with its Order, before its outcome, or no listing up to it is; and no read of an earlier listing, or of the same one without its buyer, meets a placeholder |
| EscrowMirror.RunKeepsFinal | apps/verify/fv/db.py:487-549 | over every run, safe or not, a final row stays and stays final |
| EscrowMirror.FullSyncIsExact | apps/verify/fv/db.py:552-578 | a full recomputation makes every wallet's counters exact |
| EscrowMirror.RunIsFaithful | apps/verify/fv/db.py:487-578 | from empty tables, over every interleaving of reconcile transactions and outcomes of any number of order accounts whose schedule is in order: each recorded outcome is exactly one row, every row tells the truth, and every wallet's counters equal its RELEASED and DISPUTE rows |
| EscrowMirror.PartSyncIsExact | apps/verify/fv/db.py:552-578 | recomputing the participants of the changed row leaves every wallet's counters equal to its RELEASED and DISPUTE rows |
| EscrowMirror.OutcomeKeepsExact | apps/verify/fv/db.py:511-578 | after a safe outcome the counters of all wallets are exact |
| EscrowMirror.Tables.UpsertEscrowOrder | apps/verify/fv/db.py:487-508 | the statements of the upsert with its search for the newest placeholder equal the write that ReadKeepsIff is about |
| EscrowMirror.Tables.RecordEscrowOutcome | apps/verify/fv/db.py:511-549 | the statements of recording equal the write that OutcomeKeepsIff is about, and the counters of the participants follow |
| EscrowMirror.Tables.ReconcileOrders | apps/verify/fv/reconcile.py:320-328 | the order part of a reconcile transaction: all reads, then a full recomputation of the counters |
| EscrowMirror.Tables.SyncEscrowCounters | apps/verify/fv/db.py:552-578 | exactly the wallets asked for (or all) get the counts of their rows |
| RegistryCache.EveryInterleaving | apps/verify/fv/routes_chain.py:82-129 | the invariant of locks, times, reads and answers holds in every interleaving of any number of threads |
| RegistryCache.OneReadInFlight | apps/verify/fv/routes_chain.py:90-129 | at most one chain read is in flight |
| RegistryCache.ReadsAreSpaced | apps/verify/fv/routes_chain.py:90-129 | for any two reads of which the first raised nothing: 60 s lie between their entry times after a success, 10 s after a caught failure |
| RegistryCache.CachedIsYoung | apps/verify/fv/routes_chain.py:82-87 | a cached registry was read less than 900 s before the call that gets it |
| RegistryCache.RaisedReadIsRepeated | apps/verify/fv/routes_chain.py:105-129 | an exception that the read does not catch leaves no trace: a waiting thread then reads at once, in any state |
| RegistryCache.RaisedReadsAreNotSpaced | apps/verify/fv/routes_chain.py:105-129 | a run from the start in which two reads have the same entry time, the first one having raised |
| RegistryCache.AloneIs | apps/verify/fv/routes_chain.py:82-129 | a call on its own: the registry read within 60 s; else, while another reads or within 10 s of a failure, one read within 900 s or the fallback; else a read, whose result is kept |
| RegistryCache.SoloCall | apps/verify/fv/routes_chain.py:90-129 | the sections of one thread in a row, in any state, amount to a call on its own, with the refresh lock as it was |
| RegistryCache.Cache.RegistryInfo | apps/verify/fv/routes_chain.py:90-129 | the method computes that call on its own: answer and fields |
| ArchiveQueue.RowBackoffGrows | apps/verify/fv/arweave.py:402-404 | waits never shrink with more attempts and stay between 5 minutes and 6 hours |
| ArchiveQueue.RowBackoffDoubles | apps/verify/fv/arweave.py:402-404 | 5 minutes, doubling with each failure up to 6 hours |
| ArchiveQueue.CycleWaitDoubles | apps/verify/fv/arweave.py:106-115 | one minute, doubling with each failure in a row up to an hour |
| ArchiveQueue.GlobalFailureWaits | apps/verify/fv/arweave.py:106-115 | cycles are skipped exactly while the last upload failed globally and its wait is not over |
| ArchiveQueue.HealthAfter | apps/verify/fv/arweave.py:407-452 | the health after a cycle is that of all its uploads in order, up to the first row with a global failure |
| ArchiveQueue.QueueIs | apps/verify/fv/db.py:612-624 | the queue holds waiting rows only, fewest attempts first, then newest, and passes none over for a later one |
| ArchiveQueue.CycleRows | apps/verify/fv/arweave.py:407-452 | each row reached is finished, or waits its backoff with one attempt more; all others stay as they were |
| ArchiveQueue.CycleLowersLoad | apps/verify/fv/arweave.py:407-452 | a cycle that does not try row r lowers the sum of max(0, a + 1 - attempts) by the number of rows it tries ahead of r |
| ArchiveQueue.WaitingCostsLoad | apps/verify/fv/arweave.py:407-452 | every due cycle that passes r over costs `limit` of that sum |
| ArchiveQueue.TriedInTime | apps/verify/fv/db.py:612-635 | with n rows and no global failure a row with a failures is tried within floor((n-1)(a+1)/limit) + 1 cycles in which it is due, however often the others fail |
| ArchiveQueue.Archive.ArweaveQueue | apps/verify/fv/db.py:612-624 | the query returns the due rows, fewest attempts first, then newest, at most limit of them |
| ArchiveQueue.Archive.Backfill | apps/verify/fv/arweave.py:407-452 | the cycle as it runs, with its global stop and backoff, equals the step of TriedInTime |
| RateLimiter.ForgettingUnobservable | apps/verify/fv/ratelimit.py:76-113 | on every run that never has to drop the oldest half, the limiter answers like one that forgets nothing |
| RateLimiter.LevelIs | apps/verify/fv/ratelimit.py:67-75 | a key may spend the capacity when unseen, and otherwise what its bucket held plus rate per second, up to the capacity |
| RateLimiter.CallIs | apps/verify/fv/ratelimit.py:67-98 | hit and allows succeed exactly when the level covers the cost; an accepted hit and every spend take it, and no other bucket changes |
| RateLimiter.WindowBound | apps/verify/fv/ratelimit.py:67-113 | on every run, eviction of the oldest half included: in any window of length T, hit accepts for one key at most capacity + rate * T, plus capacity for each time its bucket is dropped before it is full |
| RateLimiter.DropsIff | apps/verify/fv/ratelimit.py:76-113 | a call gives a key tokens it did not have exactly when it drops the key's bucket before it is full |
| RateLimiter.RoomyWindowBound | apps/verify/fv/ratelimit.py:67-98 | at most capacity + rate * T on every run that never has to drop the oldest half, whatever else is called |
| RateLimiter.DroppedBucketBreaksBound | apps/verify/fv/ratelimit.py:106-113 | four hits with room for two keys and no refill, one key accepted twice: the bound fails when its bucket is dropped |
| RateLimiter.RoomyAnswers | apps/verify/fv/ratelimit.py:67-98 | calls that lead from state to state as the methods do answer as the step function says |
| RateLimiter.RetrySucceeds | apps/verify/fv/ratelimit.py:100-104 | after a refused hit of a cost up to capacity, waiting retry_after makes it succeed |
| RateLimiter.RetryIsTight | apps/verify/fv/ratelimit.py:100-104 | one second earlier the bucket holds no more than the cost |
| RateLimiter.SizeBoundIff | apps/verify/fv/ratelimit.py:76-113 | the map stays within max_keys exactly when max_keys is at least 2 |
| RateLimiter.Limiter.Evict | apps/verify/fv/ratelimit.py:106-113 | eviction drops full buckets, and then the older half only when there is still no room |
| RateLimiter.Limiter.HitBucket | apps/verify/fv/ratelimit.py:67-86 | every hit is a step of the runs of WindowBound, and keeps the size bound |
| Base58.RecodeInverts | apps/verify/fv/txverify.py:142-159 | recoding digits from one base to another and back is the identity, leading zeros included |
| Base58.DecodeEncode | apps/verify/fv/txverify.py:142-159 | b58decode inverts b58encode on all byte strings |
| Base58.EncodeDecode | apps/verify/fv/txverify.py:142-159 | b58encode inverts b58decode on all strings that decode |
| Base58.DecodesIff | apps/verify/fv/txverify.py:142-150 | a string decodes exactly when all its characters are in the alphabet |
| Base58.EncodeIs | apps/verify/fv/txverify.py:153-159 | the code spells the number of the bytes in base 58, most significant digit first, with a leading 1 for each leading zero byte |
| Base58.DecodesAlphabet | apps/verify/fv/txverify.py:138-147 | a string decodes exactly when each character is in the written alphabet |
| Base58.ToBytesIsNumeral | apps/verify/fv/txverify.py:148-150 | (bit_length + 7) // 8 bytes are exactly the number without leading zeros |
| Base58.B58Decode | apps/verify/fv/txverify.py:142-150 | the accumulating loop and the count of leading ones compute the decoder that EncodeDecode is about |
| Base58.B58Encode | apps/verify/fv/txverify.py:153-159 | the division loop computes the encoder that DecodeEncode is about |
| Base58.HexValue | scripts/lib/cli.ts:161 | the number read from the hexadecimal form is the number of the bytes |
| Base58.Bs58Encode | scripts/lib/cli.ts:160-166 | the TypeScript encoder computes the same function |
| LogFrames.ProgramEvents | apps/verify/fv/txverify.py:239-263 | the loop over the log with its stack computes the scan that the lemmas are about |
| LogFrames.EventsAreEmitted | apps/verify/fv/txverify.py:239-263 | for every call forest of any depth, exactly the payloads the program itself emitted, in order, when no free text reads as a frame |
| LogFrames.InvokedIff | apps/verify/fv/txverify.py:234 | a line reads as the invocation of p exactly when it is one, with a word p and a depth in brackets, a line feed behind it included |
| LogFrames.ExitsIff | apps/verify/fv/txverify.py:235 | a line reads as an exit exactly when success or failed follows the program word, whatever comes behind |
| LogFrames.ForgesIff | apps/verify/fv/txverify.py:234-235 | a logged text reads as a frame exactly when it starts with success, failed, or a complete invoke suffix |
| LogFrames.LogHarmlessIff | apps/verify/fv/txverify.py:234-263 | logging a text and then emitting an event attributes the event rightly if and only if the text is none of those |
| LogFrames.SplitJoin | apps/verify/fv/txverify.py:254-263 | splitting a data line gives back its parts |
| CanonicalJson.ParsePrint | packages/proof/src/canonical.ts:7-19 | a parser inverts the printed form of every nested value, strings with escapes and lone surrogates included |
| CanonicalJson.PrintInjective | packages/proof/src/canonical.ts:7-19 | printing is injective |
| CanonicalJson.CanonicalIsPrint | packages/proof/src/canonical.ts:7-19 | canonicalize prints exactly the value with sorted keys and without undefined fields |
| CanonicalJson.SortSorts | packages/proof/src/canonical.ts:17 | keys end in strictly increasing order of UTF-16 code units |
| CanonicalJson.SortedByUnits | packages/proof/src/canonical.ts:17 | each key is smaller than the next at the first code unit where they differ, or its beginning |
| CanonicalJson.EscapedIs | packages/proof/src/canonical.ts:13 | what each code unit becomes in a string literal (section 3.2.2.2 of RFC 8785) |
| CanonicalJson.SortedUnique | packages/proof/src/canonical.ts:17 | a sorted list is determined by its members |
| CanonicalJson.EqualIff | packages/proof/src/canonical.ts:17-18 | equality up to key order, undefined fields ignored, is equality of the sorted trees |
| CanonicalJson.CanonicalIff | packages/proof/src/canonical.ts:7-19 | canonicalize gives equal strings exactly for values that are equal up to key order |
| CanonicalJson.ThrowsIff | packages/proof/src/canonical.ts:11-12 | it throws exactly when some number in the value, however deep, is not finite |
| Lrp.IncrCounts | apps/verify/libsdm/lrp.py:45-55 | the counter counts modulo 256 to the power of its length |
| Lrp.SecretsAre | apps/verify/libsdm/lrp.py:95-124 | the secret plaintexts and updated keys are those of the two ratchets over the half and other constants, for any cipher |
| Lrp.EvalIs | apps/verify/libsdm/lrp.py:126-138 | the evaluation encrypts along the base-16 digits of the counter, high digit of each byte first, and once more over zeros to finish |
| Lrp.EncryptedAt | apps/verify/libsdm/lrp.py:141-173 | block i of a ciphertext is encrypted under the evaluation of the counter i steps on |
| Lrp.CounterAfter | apps/verify/libsdm/lrp.py:141-173 | an encryption moves the counter on by one for each block; an error leaves it |
| Lrp.DecryptsIff | apps/verify/libsdm/lrp.py:175-202 | what decrypt returns for every input: whole blocks, and with padding what stands before it |
| Lrp.MacIs | apps/verify/libsdm/lrp.py:204-242 | the code is CBC under the evaluation with a masked last block (section 6.2 of NIST SP 800-38B) |
| Lrp.PadRemoved | apps/verify/libsdm/lrp.py:19-31 | remove_pad undoes bit padding |
| Lrp.RemovePadIff | apps/verify/libsdm/lrp.py:19-31 | and accepts exactly padded texts and, as the empty text, zeros alone |
| Lrp.DecryptInverts | apps/verify/libsdm/lrp.py:141-202 | decrypt inverts encrypt for every key, counter (wrap-around included), padding mode and message that encrypt accepts, and both end on the same counter |
| Lrp.EncryptsIff | apps/verify/libsdm/lrp.py:141-173 | with padding every message encrypts, without exactly the nonempty ones of whole blocks |
| Lrp.LRP.EvalLrp | apps/verify/libsdm/lrp.py:126-138 | the nibble loop computes the evaluation function |
| Lrp.LRP.Encrypt | apps/verify/libsdm/lrp.py:141-173 | the block loop that advances the counter computes the function DecryptInverts is about, errors included |
| Lrp.LRP.Decrypt | apps/verify/libsdm/lrp.py:175-202 | likewise for decryption, a short last block refused after the whole ones |
| Lrp.LRP.CmacLrp | apps/verify/libsdm/lrp.py:204-242 | the streaming loop equals the block-by-block definition of NIST SP 800-38B section 6.2 for every length, empty included |
| HeatStrip.DecidedIsTrue | packages/vision/src/pipeline.ts:190-225 | on a physically monotone strip whose fields without glare are read right, the fields are never called inconsistent and a decided verdict reports the true level of every field |
| HeatStrip.DecidedIff | packages/vision/src/pipeline.ts:190-225 | such a strip is decided exactly when the white balance is usable, the decisive field is confident and free of glare, and glare hides only fields on the side it settles |
| HeatStrip.VerdictIff | packages/vision/src/pipeline.ts:190-225 | for all readings, physical or not: consistent exactly when no two fields without glare, one of confidence 0.85 or more, show white at the cooler and black at the hotter temperature; decided exactly when also the white balance is usable, the decisive field is confident and free of glare, and glare hides only fields on the side it settles |
| HeatStrip.DecidedLevels | packages/vision/src/pipeline.ts:216-225 | the levels of a decided reading are those seen and, under glare, the verdict |
| HeatStrip.MajorityIs | packages/vision/src/combine.ts:19-25 | under a quorum of more than half, a value with enough votes is the unique winner |
| HeatStrip.MajorityOrderFree | packages/vision/src/combine.ts:19-25 | the vote does not depend on the order of the votes |
| HeatStrip.MajorityFirst | packages/vision/src/combine.ts:19-25 | for any quorum, the winner is the first vote that the quorum, and at least one vote, agrees with; without one, unreadable |
| HeatStrip.MajorityVote | packages/vision/src/combine.ts:19-25 | counting into an insertion-ordered map and taking the first value with enough votes computes that vote |
| HeatStrip.VoteIff | packages/vision/src/combine.ts:63-66 | an indicator gets value v exactly when more than half of all frames captured voted v |
| HeatStrip.VoteWins | packages/vision/src/combine.ts:63-66 | a value that more than half of all frames captured report, counting only frames that take part, wins |
| HeatStrip.VoteMissing | packages/vision/src/combine.ts:19-25 | an indicator that all of them report as missing is missing |
| HeatStrip.VoteSplit | packages/vision/src/combine.ts:19-25 | and otherwise, without such a majority, it is unreadable |
| HeatStrip.CombinedIff | packages/vision/src/combine.ts:46-66 | a combined reading is found exactly when some frame takes part; its indicators are the votes, or all missing |
| HeatStrip.LevelIff | packages/vision/src/combine.ts:75-79 | a level other than the decisive one is set exactly when more than half of the frames that agree on the verdict report it |
| HeatStrip.CombineOrderFree | packages/vision/src/combine.ts:46-100 | the combined verdicts and levels do not depend on the order of the frames |
| HeatStrip.CombinedPhysics | packages/vision/src/combine.ts:75-79 | the 40 degree level always equals the verdict, undecided readings report zeros, and levels that fall with temperature in each frame fall in the combination |
| HeatStrip.CombinedIsTrue | packages/vision/src/combine.ts:75-79 | when every decided frame reports the truth, so does a decided combined reading |
| HeatStrip.CombineReadings | packages/vision/src/combine.ts:46-79 | combining step by step, with the reassigned level vector, computes the reading these lemmas are about |

## Left out

- JPEG marker segments (DQT, DHT, SOF, SOS, DRI) are parsed before this model starts; quantisers, code lengths, values and
  components arrive parsed.
- JPEG: the floating-point inverse DCT and the colour conversion; the model ends at the coefficients and the cells sampled.
- JPEG: the size limits of typed arrays.
- PNG: compression and checksums are parameters; the decoder of the repository does not look at checksums either.
- HTTP, RPC, SQLite, clocks, subprocesses and files: a transaction is one atomic step, times and random ids are inputs.
- TapProtocol: request checks before the transaction (403 and 422), the signed message itself, simulated chips, and
  `purge-seed`, which deletes seals. Nonces drawn are fresh.
- TapProtocol.RunIsSafe: sightings that `drop_superseded_sighting` merges are events of no consequence for signatures.
- PassportGrade: matching an event to its on-chain proof (an event is confirmed when its scan is recorded), the ages at
  which events time out or are no longer checked (giving up and confirming are possible at any time), tier-0 sightings.
- Escrow: rent, events and the width of u64 (prices and balances are unbounded; i64 times are not), the mpl-core CPI (an
  asset transfer succeeds when the authority holds the asset) and account types and address derivation.
- EscrowMirror.RunIsFaithful: outcomes with a block time, and listings of one account that do not end and begin within the
  same second; the writes for a missing block time are in the model, but their faithfulness is not stated.
- EscrowMirror.OutcomeKeepsIff: outcomes of a listing already read as final are left out there; FinalStaysFinal covers them.
- RegistryCache: exceptions while the fallback is built and the creation of the cache object.
- ArchiveQueue.TriedInTime: rows that arrive during the run; each cycle sees the rows present at its start.
- RateLimiter: numbers are reals, and time does not go back.
- Base58: the kinds of Python exceptions for characters outside the alphabet.
- LogFrames: digits outside ASCII that Python's `\d` also matches; base64 decoding is a parameter.
- CanonicalJson: numbers are integers that a double holds exactly; fractions and exponents are not printed.
- Lrp: AES and doubling in GF(2^128) are parameters of which only "decryption inverts encryption" is used; a negative key
  index.
- HeatStrip: how levels and confidences are measured, humidity and UV verdicts of one frame, and of the combined reading
  the representative frame, confidences and reasons.
- React components, wallet adapters, scripts, registry administration, sealing of messages and media storage.
