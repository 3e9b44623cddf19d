# TkTox: a verified model

TkTox is a Tox client with end-to-end encrypted sessions. This project models its five
algorithmic cores and proves what each of them is for.

- **The key encapsulation** `vendor-sntrup761/sntrup761.c` (Streamlined NTRU Prime 761):
  division without a division instruction, the mixed-radix byte codec, the
  data-oblivious sort, multiplication in Z[x]/(x^p - x - 1), the division-step inverse,
  key generation, encryption, decryption and decapsulation. Main results: decapsulation
  never fails (`Encapsulation.DecapsulatesWhatWasEncapsulated`), also for generated keys
  (`KeyGeneration.KemKeyGen`), and a forged ciphertext gives the key of implicit rejection
  (`Encapsulation.EveryCiphertext`); an inverse is returned exactly if there is one
  (`Reciprocal.R3Recip`, `RqReciprocal.RqRecip3`), the sort sorts
  (`MergeExchange.SortInt32`), decoding undoes encoding (`RadixCodec.RoundTrip`).
- **The double-ratchet session** `src/session.c`: hash chains, the skipped-key store, the
  two-party re-key protocol, the parked carrier of lossy sessions, and the re-send
  buffer. Main results: re-key agreement over FIFO channels
  (`RekeyAgreement.RekeyAgreement`) under a condition on one side at a time, with a tight
  bound (`LongBurst.LongBurstDiverges`), and re-keys that come about
  (`RekeyProgress.DueRekeyCompletes`), no key used twice (`KeyUse.NoKeyTwice`), delivery under loss, duplication, reordering and forgery (`Delivery.RunDelivers`,
  `Completeness.NothingIsLost`), at-most-once (`Receiving.AtMostOnce`), the carrier
  discipline (`Carriers.ParkedStays`, `Carriers.PendingIffAttached`), recovery across
  re-establishments (`Recoveries.RecoveryDelivers`, `Resending.AllResentIff`).
- **The TCP tunnel** `src/tunnel.c`: one forwarded stream with a credit window over a
  transport that may refuse packets. Main results: stream safety, credit conservation and
  absence of deadlock (module `FlowControl`), progress up to the FIN
  (`TunnelProgress.DrainEnds`, `TunnelProgress.EverythingArrives`), the contract of a send with its carriers
  (`TunnelSend.SendContract`), and what refused packets cost (`RefusedSends.RefusedRow`).
- **The chess engine** `src/chess.c`: attack tests, the move validator and the checkmate
  generator meet one loop-free statement of the rules, and leaving castling out of the
  generator changes no verdict (`ChessCastling.OmittingCastlingIsHarmless`); what a move
  leaves on the board, by its kind, and which rights it takes (module `ChessMoves`).
- **The session store** `src/session_store.c`: the printer and the parser of the sidecar
  file are inverse (`SessionStore.StoreRoundTrip`), and every field lies where it should
  (`StoreLayout.FileLayout`).

Code that updates something in place is a method over arrays or over a class with the
fields of the C struct (`TTRatchet`, `SentBuf`, `TTSession`, `TTTunnelConn`, `TTChess`,
`Buf`, `Reader`), proved against a specification function or a predicate; the theorems
are lemmas about those.

## How the surroundings are modelled

Cryptography in the session layer is symbolic (module `Symbolic`): a KDF step is an
injective constructor, Diffie-Hellman commutes and fails exactly on points that are not
contributory, the KEM returns the encapsulated secret only for the pair that it was
encapsulated to, and a sealed box opens only under its own key with the header and the
number it was sealed with. A wire frame is a datatype. Random draws, AES-GCM
availability, the answers of the transport, and what a socket returns are parameters.
Signed and unsigned C integers are modelled with their widths where the code depends on
them (`DivMod`, `TwosComplement`, `StoreFormat`).

## What is not true of the code

- Two sides that both build 66 frames before they are quiescent can leave the two ends of
  a direction disagreeing for good, by the automatic re-key alone:
  `LongBurst.LongBurstDiverges`. As long as in every stretch one of them builds at most 65,
  however many the other builds, they always agree: `RekeyAgreement.RekeyAgreement`. The
  hook `tt_session_rekey_due`, which nothing in the repository calls, can do it with fewer
  frames if both sides are forced: `StaleRekey.SecondRekeyDiverges`. For one REKEY the exact
  condition is `RekeyAgreement.RekeyAgreesIff`.
- In a session that is not lossy a text that fits a frame may not fit beside the re-key
  header that is due: 129 bytes beside a KEMPUB (141 with AES-GCM), 248 (260) beside a
  REKEY. The emission then fails after flags and chain have moved, exactly as
  `Emissions.EmissionNeedsRoom` says. The next text carries the REKEY after all, but a pair
  only in the cases of `Emissions.RetryPublishes`; otherwise a side that waits for the
  peer's pair publishes nothing more until a frame of the peer arrives
  (`Emissions.StuckRun`, reached in `Emissions.LongTextSticks`). The re-key theorem is about
  texts that fit beside the header that is due.
- A tunnel frame that the transport refuses has used up a chain step. While a side waits
  for the peer's pair with nothing left to publish, 512 refusals in a row make the peer
  reject the next frame as too far ahead; in every other state a carrier is parked after at
  most 64 refused payloads, and the peer takes the next frame: `RefusedSends.RefusedRow`.
  `RefusedSends.WaitingIsReached` reaches the first case.
- The FIN of a tunnel connection is sent once. If the transport refuses it, the far end is
  never told (`TunnelProgress.FinishesIffSent`, reached in `TunnelProgress.LostFin`).
- A RESEND request that names the current generation and a text that is buffered is served
  for ever: each re-sent text is asked for again under its new tag
  (`Resending.ServiceEndsIff`), and the loop at src/tox_thread.c:111-115 polls until
  nothing is emitted. Two sessions and one corrupted frame suffice if the failed decrypt is
  polled at once (`Recoveries.CorruptedFrameLoops`). The engine re-establishes before it
  polls (src/tox_thread.c:229-234), so its own requests name an older generation, for which
  the service ends; the receiving side does not check this.
- A request for an older generation does not always get every text it asks for. A poll
  passes over a text that does not fit beside the header that is due; it emits exactly if
  one of the texts fits when its turn comes (`Resending.PollEmitsIff`), and a poll that
  emits nothing ends the service. `Resending.AllResentIff` says exactly when every text is
  re-sent: no poll is left with texts that all fail, and none is evicted from a full buffer
  while it is passed over; as long as the automatic trigger does not fire, that is
  `ResendPlans.Suffices` (after the pairs that are due one more text or a short last one,
  and for a REKEY a text that fits beside it). `Recoveries.PairBlocks` reaches a text that
  is given up beside a pair.
- An acknowledgement names the number below the next expected one, although the comments
  call it the highest contiguous number (src/session.c:603-609). Everything up to it was
  delivered exactly if no key of a skipped message is stored (`Acks.AckedIff`); otherwise
  the sender drops texts that were never delivered, those whose keys are stored
  (`Acks.AckDrops`). `Acks.AckDropsUndelivered` is the first such run. An acknowledgement
  that is due when a session is re-established names the new generation with the old
  number: `Recoveries.StaleAck`.
- Re-sending from a full buffer stores zeros instead of the text that lay in the oldest
  slot: `Resending.ResentTextKept` says exactly when the stored text is right.
- With 256 active sessions the one-byte counter wraps to 0 and the file is removed; with a
  key, sessions of more than 4 MiB are not written and the old file stays; a file over
  4 MiB is never read back: `SessionStore.StoreRoundTrip`.
- The checkmate generator judges an en passant capture with the captured pawn still on the
  board. Where no such capture is possible its verdicts are right
  (`ChessPassant.VerdictRight`); `ChessPassant.PassantMisjudged` is a position that it calls
  checkmate although en passant is a way out.

## Model

| member | source | states |
|---|---|---|
| DivMod.Uint32DivmodUint14 | vendor-sntrup761/sntrup761.c:125-171 | for every 32-bit x and 0 < m < 2^14 the two reciprocal steps and the masked fix-up give the exact quotient and remainder |
| DivMod.ReciprocalBound | vendor-sntrup761/sntrup761.c:136-147 | what one reciprocal step leaves over: at least 0 and at most (1 - 1/2^31)m + x(m-1)/2^31 |
| DivMod.FirstStep | vendor-sntrup761/sntrup761.c:141-151 | after the first step at most 49146 is left |
| DivMod.SecondStep | vendor-sntrup761/sntrup761.c:153-161 | after the second step at most m is left |
| DivMod.Int32DivmodUint14 | vendor-sntrup761/sntrup761.c:185-201 | floor division of every signed 32-bit x, from two unsigned divisions and a masked borrow |
| DivMod.F3Freeze | vendor-sntrup761/sntrup761.c:376-380 | the centred residue modulo 3 of every 16-bit value |
| DivMod.FqFreeze | vendor-sntrup761/sntrup761.c:390-394 | the centred residue modulo q of every value the code passes |
| TwosComplement.MinMaxExact | vendor-sntrup761/sntrup761.c:13-23 | the compare-exchange mask arithmetic is exact minimum and maximum for every pair of int32 values, equal and extreme ones included |
| TwosComplement.SwapMask | vendor-sntrup761/sntrup761.c:500-508 | xor-swapping under a mask swaps exactly if the mask is -1 |
| TwosComplement.KeepOrDefault | vendor-sntrup761/sntrup761.c:767-771 | the two masked selections at the end of decryption keep the value or yield the default |
| Masks.Int16NonzeroMask | vendor-sntrup761/sntrup761.c:347-355 | -1 exactly for nonzero 16-bit values |
| Masks.Int16NegativeMask | vendor-sntrup761/sntrup761.c:358-365 | -1 exactly for negative 16-bit values |
| MergeExchange.MinMax | vendor-sntrup761/sntrup761.c:13-23 | the macro returns the smaller and the larger value |
| MergeExchange.SortInt32 | vendor-sntrup761/sntrup761.c:26-98 | for every length the in-place sort ends in bounds, with the array sorted and a permutation of what it was |
| SortingNetwork.PassSorts | vendor-sntrup761/sntrup761.c:38-93 | one pass turns subsequences sorted with stride 2p into subsequences sorted with stride p |
| SortingNetwork.StageOrdered | vendor-sntrup761/sntrup761.c:52-93 | each distance of a pass keeps what the earlier distances ordered and orders its own pairs |
| MergeExchange.SecondLoop | vendor-sntrup761/sntrup761.c:50-93 | the position-by-position sweep, with its exits and its register, leaves what the distance-by-distance network leaves |
| MergeExchange.FirstLoop | vendor-sntrup761/sntrup761.c:40-48 | the first loop exchanges exactly the pairs at distance p, and permutes |
| ShortPoly.SortUint32 | vendor-sntrup761/sntrup761.c:102-112 | sorts and permutes unsigned words in place, by xor with the sign bit around the signed sort |
| ShortPoly.FlipSign | vendor-sntrup761/sntrup761.c:105-111 | x ^ 0x80000000 read as a signed word is x - 2^31, and the second xor undoes that |
| ShortPoly.ShortFromList | vendor-sntrup761/sntrup761.c:649-662 | for every list of p words: ternary with exactly w nonzero entries; the coefficients are the marks of the words (the low bit of the first w cleared, the low two bits of the others set to 01), listed in the order of the marked words |
| ShortPoly.ShuffleIsUnique | vendor-sntrup761/sntrup761.c:649-662 | the words alone decide which polynomial that is |
| RadixCodec.Encode | vendor-sntrup761/sntrup761.c:299-340 | the recursive writer produces the specified mixed-radix bytes |
| RadixCodec.Decode | vendor-sntrup761/sntrup761.c:228-295 | the recursive reader computes the specified digits from any bytes |
| RadixCodec.RoundTrip | vendor-sntrup761/sntrup761.c:226-340 | for every length and digits below radices below 2^14, decoding gives the digits back from the bytes that were written, whatever follows them |
| RadixCodec.Thresholds | vendor-sntrup761/sntrup761.c:248-272 | the two size thresholds of the reader take exactly the bytes that the writer's loop emits |
| RadixCodec.DecodeInRange | vendor-sntrup761/sntrup761.c:222-224 | decoding arbitrary bytes still gives digits below their radices |
| PolyCodec.SmallEncode | vendor-sntrup761/sntrup761.c:780-796 | packs four ternary coefficients a byte |
| PolyCodec.SmallDecode | vendor-sntrup761/sntrup761.c:798-817 | unpacks any bytes |
| PolyCodec.SmallRoundTrip | vendor-sntrup761/sntrup761.c:780-817 | unpacking undoes packing for every ternary polynomial of length 4k + 1 |
| PolyCodec.SmallBytesAt | vendor-sntrup761/sntrup761.c:780-796 | byte k holds coefficients 4k to 4k + 3, each plus 1, the first in the lowest two bits; the last coefficient has a byte of its own |
| PolyCodec.RqEncode | vendor-sntrup761/sntrup761.c:821-832 | the public-key polynomial as exactly its mixed-radix bytes |
| PolyCodec.RqDecode | vendor-sntrup761/sntrup761.c:834-845 | reads a polynomial with coefficients within (q-1)/2 from any bytes |
| PolyCodec.RqRoundTrip | vendor-sntrup761/sntrup761.c:821-845 | 1158 bytes, and reading undoes writing |
| PolyCodec.RoundedEncode | vendor-sntrup761/sntrup761.c:849-860 | the multiply-and-shift divides a rounded coefficient by 3 exactly |
| PolyCodec.RoundedDecode | vendor-sntrup761/sntrup761.c:862-873 | reads a rounded polynomial from any bytes |
| PolyCodec.RoundedRoundTrip | vendor-sntrup761/sntrup761.c:849-873 | 1007 bytes, and reading undoes writing on every rounded polynomial |
| PolyRing.MulComm | vendor-sntrup761/sntrup761.c:433-464 | multiplication in Z[x]/(x^p - x - 1) commutes, for every p >= 2 |
| PolyRing.MulAssoc | vendor-sntrup761/sntrup761.c:433-464 | it is associative |
| RingMult.R3Mult | vendor-sntrup761/sntrup761.c:433-464 | for all inputs and every p >= 2 the result is the centred representative of f*g modulo x^p - x - 1 and 3 |
| RingMult.RqMultSmall | vendor-sntrup761/sntrup761.c:529-560 | likewise modulo q |
| RingMult.FoldIsAct | vendor-sntrup761/sntrup761.c:456-460 | folding the high half of the convolution once is reduction modulo x^p - x - 1: the fold never cascades |
| Reciprocal.R3Recip | vendor-sntrup761/sntrup761.c:466-525 | status 0 exactly if some u has u*in = 1 modulo 3 and x^p - x - 1, and then out is one |
| Reciprocal.InverseSound | vendor-sntrup761/sntrup761.c:466-525 | a run that ends with delta 0 yields an inverse |
| Reciprocal.CofactorSound | vendor-sntrup761/sntrup761.c:466-635 | over Z/3 and over Z/q, a run that ends with delta 0 has a cofactor whose product with the input is the constant that is left in f, times what r started with |
| Reciprocal.CongruenceStep | vendor-sntrup761/sntrup761.c:489-519 | a division step keeps x^(n-1) f = v in and x^n g = r in, read from the reversed side |
| Reciprocal.DegreesStep | vendor-sntrup761/sntrup761.c:489-519 | a division step keeps the degree bounds tied to delta |
| Reciprocal.OverflowDooms | vendor-sntrup761/sntrup761.c:489-519 | a run in which v would outgrow its array cannot end with delta 0 |
| Reciprocal.RemainderStep | vendor-sntrup761/sntrup761.c:489-519 | a division step never makes the constant term of r zero |
| Reciprocal.TracedStep | vendor-sntrup761/sntrup761.c:489-519 | a division step keeps, also after v has outgrown its array, the degree bounds, a nonzero r and r in = x^n g |
| Reciprocal.FailedEquation | vendor-sntrup761/sntrup761.c:466-635 | a run that ends with another delta leaves an r that annihilates the input |
| Reciprocal.InvertibleSucceeds | vendor-sntrup761/sntrup761.c:466-635 | over Z/3 and over Z/q, a run over an input that has an inverse ends with delta 0 |
| Reciprocal.SucceedsIffInvertible | vendor-sntrup761/sntrup761.c:466-525 | over Z/3 the run ends with delta 0 exactly if the input has an inverse |
| Reciprocal.DivStepInPlace | vendor-sntrup761/sntrup761.c:489-519 | one loop turn over the four arrays is one division step |
| Fermat.Euclid | vendor-sntrup761/sntrup761.c:396-408 | q divides a product only if it divides a factor |
| Fermat.LittleTheorem | vendor-sntrup761/sntrup761.c:396-408 | a^(q-1) = 1 modulo q for every a that q does not divide |
| Fermat.FqRecip | vendor-sntrup761/sntrup761.c:396-408 | the inverse modulo q of every nonzero centred residue |
| RqReciprocal.DivStepInPlace | vendor-sntrup761/sntrup761.c:600-628 | one loop turn over the four arrays is one division step over Z/q |
| RqReciprocal.RqRecip3 | vendor-sntrup761/sntrup761.c:572-635 | status 0 exactly if in has an inverse modulo q and x^p - x - 1, and then 3*out*in = 1 |
| NtruCore.ProductWithin | vendor-sntrup761/sntrup761.c:741-772 | the product of a weight-w and a ternary polynomial has coefficients within 2w after reduction |
| NtruCore.LiftBound | vendor-sntrup761/sntrup761.c:741-772 | every coefficient of g*r - 3*f*m after reduction is within 2 weight(r) + 6 weight(f), that is 8w, below q/2 |
| NtruCore.DecryptedLift | vendor-sntrup761/sntrup761.c:751-765 | so the centred reduction modulo q recovers it over the integers |
| NtruCore.DecryptsWhatWasEncrypted | vendor-sntrup761/sntrup761.c:741-772 | for every key pair with 3fh = g, f and r of weight w, and 1/g = ginv modulo 3: Decrypt(Encrypt(r)) = r |
| NtruCore.WeightwMask | vendor-sntrup761/sntrup761.c:412-422 | 0 exactly for weight w |
| NtruCore.R3FromRq | vendor-sntrup761/sntrup761.c:424-431 | coefficientwise centred residues modulo 3 |
| NtruCore.RqMult3 | vendor-sntrup761/sntrup761.c:562-570 | three times a polynomial, centred modulo q |
| NtruCore.Round | vendor-sntrup761/sntrup761.c:639-645 | rounds each coefficient to a multiple of 3 |
| NtruCore.Encrypt | vendor-sntrup761/sntrup761.c:741-749 | the rounded product; every coefficient a multiple of 3 within (q-1)/2 |
| NtruCore.Decrypt | vendor-sntrup761/sntrup761.c:751-772 | the weight-w candidate or the fixed fallback, ternary either way |
| Encapsulation.ZEncrypt | vendor-sntrup761/sntrup761.c:901-910 | the rounded part of the ciphertext |
| Encapsulation.ZDecrypt | vendor-sntrup761/sntrup761.c:912-924 | decrypts any ciphertext and secret key of the right sizes to a ternary polynomial |
| Encapsulation.Hide | vendor-sntrup761/sntrup761.c:978-988 | ciphertext with confirmation, and the encoded input |
| Encapsulation.CiphertextsDiffMask | vendor-sntrup761/sntrup761.c:1004-1014 | 0 exactly if all bytes agree, else -1 |
| Encapsulation.SelectBytes | vendor-sntrup761/sntrup761.c:1032-1033 | masked selection of the encoded input or rho |
| Encapsulation.Enc | vendor-sntrup761/sntrup761.c:990-1002 | whatever the random words, the result encapsulates the short polynomial that they give |
| Encapsulation.EncapsulatedBytes | vendor-sntrup761/sntrup761.c:926-1002 | the confirmation and the session key as hashes of r, the public key and the ciphertext, each under its own first byte |
| Encapsulation.Dec | vendor-sntrup761/sntrup761.c:1016-1035 | the key of the decrypted r, Hash1, if c is the ciphertext of that r, else Hash0 of rho and c; so for every c that is no ciphertext of anything it is Hash0 of rho and c |
| Encapsulation.DecapsulatesWhatWasEncapsulated | vendor-sntrup761/sntrup761.c:990-1035 | for every key pair, what was encapsulated to the public key decapsulates to the same session key |
| Encapsulation.DecapsulatedIsShort | vendor-sntrup761/sntrup761.c:742-776 | whatever the ciphertext and the key, decryption yields a ternary polynomial of weight w |
| Encapsulation.EveryCiphertext | vendor-sntrup761/sntrup761.c:1016-1035 | under every key pair each ciphertext, forged ones included, either encapsulates the key that it decapsulates to, or encapsulates nothing and gives Hash0 of rho and c |
| KeyGeneration.SmallRandom | vendor-sntrup761/sntrup761.c:711-718 | a ternary coefficient from each random word |
| KeyGeneration.SmallThirds | vendor-sntrup761/sntrup761.c:711-718 | each coefficient has a third of the values of the low 30 bits |
| KeyGeneration.KeysFit | vendor-sntrup761/sntrup761.c:722-740 | with finv = 1/3f and h = finv*g, three times f*h is g |
| KeyGeneration.KeyGen | vendor-sntrup761/sntrup761.c:722-740 | finds a key exactly if some draw of g has an inverse modulo 3, and takes the first; f is what the words shuffle to; if f has an inverse modulo q, and exactly then with status 0, the result is a key pair |
| KeyGeneration.KemKeyGen | vendor-sntrup761/sntrup761.c:886-976 | the two keys in bytes; if f has an inverse modulo q, whatever is encapsulated to the public key decapsulates to the same session key |
| Symbolic.Open | src/session.c:566-584 | a frame opens exactly if it was sealed under this key with this number and header |
| Ratchets.TTRatchet.constructor | src/session.c:61-69 | a fresh direction |
| Ratchets.TTRatchet.FoldRoot | src/session.c:71-86 | new root and chain, the number continues, no stored keys |
| Ratchets.TTRatchet.SendKey | src/session.c:88-99 | the key of the next number; one chain step used up |
| Ratchets.TTRatchet.MsgKeyAt | src/session.c:101-116 | the key of any number not passed yet, with nothing committed |
| Ratchets.TTRatchet.SkippedAdd | src/session.c:118-128 | append, dropping the oldest of 96 |
| Ratchets.TTRatchet.SkippedTake | src/session.c:130-142 | takes out the first key stored for the number, keeping the order of the others |
| Ratchets.TTRatchet.CommitTo | src/session.c:586-601 | stores the keys of the gap and moves past the number |
| SentRings.SentBuf.Add | src/session.c:168-186 | for every head offset the ring appends, dropping the oldest of 32 |
| SentRings.SentBuf.Ack | src/session.c:188-206 | compaction in place is the stable filter that drops what was delivered |
| SentRings.SentBuf.Remove | src/session.c:208-226 | compaction in place is the stable filter that drops one tag |
| SessionObjects.TTSession.constructor | src/session.c:278-307 | a session just established; its directions are those of KeyUse.TwoDirections |
| SessionObjects.TTSession.FeedFrame | src/session.c:513-677 | the whole new state and result for every control or DATA frame, forged ones included |
| SessionObjects.TTSession.AcceptFrame | src/session.c:603-672 | acknowledgement due, and the effect of REKEY and KEMPUB headers |
| SessionObjects.TTSession.Emit | src/session.c:695-836 | the whole new state and result of building a frame, its failures included |
| SessionObjects.TTSession.ChooseHeader | src/session.c:723-778 | which re-key header goes out, and the flags after it |
| SessionObjects.TTSession.CarrierFrame | src/session.c:838-852 | re-offers the parked carrier or builds the next one |
| SessionObjects.TTSession.IsRekeyPending | src/session.c:898-918 | true exactly in the states described by the predicate |
| SessionObjects.TTSession.MarkCarrierDone | src/session.c:860-865 | nothing is parked any more |
| SessionObjects.TTSession.MarkRekeyDue | src/session.c:1029-1032 | a re-key becomes due on an active session |
| SessionObjects.TTSession.Send | src/session.c:867-881 | emits, or stashes up to four texts before the session is active |
| SessionObjects.TTSession.SendDatagram | src/session.c:883-896 | emits, or drops before the session is active |
| SessionObjects.TTSession.FlushOne | src/session.c:920-930 | emits the oldest stashed text and removes it if that succeeded |
| SessionObjects.TTSession.Poll | src/session.c:934-1015 | the control frame or re-send that is due first |
| KeyUse.TwoDirections | src/session.c:59-75 | of two sessions just established over one root each receives what the other sends, and the two directions share no key |
| KeyUse.MovesAhead | src/session.c:72-97 | each step and each fold takes a direction to a chain that it has not had |
| KeyUse.CallSpends | src/session.c:544-1032 | every call, on whatever frame or text, leaves the keys of the frames built so far behind, all different and all of the own direction |
| KeyUse.NoKeyTwice | src/session.c:59-1032 | whatever two sessions over one root are fed and asked for, as long as they do not draw the same coins no two DATA frames that they build are sealed under the same key |
| KeyUse.SideRuns | src/session.c:544-1032 | a run of the two-party system is a run of calls to each of its sessions |
| KeyUse.SystemUsesNoKeyTwice | src/session.c:59-1032 | so over every run of the two-party system, allowed or not, refused payloads and re-sends included |
| Stashes.StashedInOrder | src/session.c:867-930 | over every life of a session, the texts taken before it was up are those that flushes have sealed, in the order in which they were sent, and those that still wait |
| Stashes.FlushEmitsIff | src/session.c:920-930 | a flush seals the oldest of them exactly if it fits beside the header that is due, and otherwise keeps it |
| Stashes.FlushesDrain | src/session.c:920-930 | as many flushes as texts that fit beside any header seal them all |
| Receiving.AtMostOnce | src/session.c:544-624 | over every run, forged frames and folds included: no number is delivered twice, stored numbers are distinct, undelivered, below the next expected one and at most 96 |
| Receiving.EstablishedHygiene | src/session.c:278-307 | a fresh session starts that way |
| Receiving.FeedHygiene | src/session.c:544-624 | every single feed keeps it |
| Receiving.RejectedFeedKeeps | src/session.c:566-584 | a rejected frame leaves chain, root, next number, the map of stored keys and all else but the re-send request unchanged, though a failed hit reorders the store |
| Receiving.ControlOpensIff | src/session.c:520-548 | a control frame is taken exactly by an active session that is not lossy and has the root whose control key sealed it, and it moves no ratchet and no re-key flag |
| Receiving.PutBackHygiene | src/session.c:119-142 | a failed hit moves its entry to the newest slot and evicts nothing |
| Receiving.OthersKeepRecv | src/session.c:695-1032 | no other operation touches the receive ratchet |
| Delivery.WalkFollows | src/session.c:101-116 | the scratch walk ends at the sender's key |
| Delivery.SkipToFollows | src/session.c:586-601 | the committed walk follows the sender's chain and stores the sender's keys |
| Delivery.KeysDiffer | src/session.c:88-116 | different numbers have different keys |
| Delivery.GenuineDelivered | src/session.c:550-584 | a sender's frame, plain or with a KEMPUB, is delivered, with the sender's text, exactly if it is at most 511 ahead or its key is stored; otherwise the code is too-old or replay |
| Delivery.FeedFollows | src/session.c:550-601 | whatever is delivered is the sender's frame of that number, and the receiver goes on following the chain; KEMPUB frames included |
| Delivery.RunDelivers | src/session.c:550-601 | between two REKEYs of the sender, under any loss, duplication, reordering and forgery only the sender's texts are delivered, each at most once |
| Completeness.FeedComplete | src/session.c:586-601 | every single feed keeps it: while a delivered frame leaves room in the store, every number passed was delivered or has its key stored |
| Completeness.RunComplete | src/session.c:586-601 | over every run in which a delivered frame leaves room in the store for the gap it opens, every number passed was delivered or has its key stored |
| Completeness.UndeliveredOpens | src/session.c:550-601 | for such a receiver, a frame of the sender less than 512 ahead opens exactly if it was not delivered before |
| Completeness.SkipToKeepsNewest | src/session.c:586-601 | when a gap opens, the store holds the 96 newest of the keys that it had and those of the gap |
| Completeness.NothingIsLost | src/session.c:550-601 | after such a run of a fresh session up to the sender's first REKEY, under any loss, reordering, duplication and forgery, a frame less than 512 ahead opens when it arrives exactly if it was not delivered before |
| Completeness.PayloadIsGenuine | src/session.c:780-783 | a lossy payload emission builds the plain frame of the next number and uses that number up |
| RefusedSends.RefusedRow | src/tunnel.c:810-894 | whatever row of calls the transport has refused, the next frame that it takes opens at a peer that had kept up, unless the side waits for the peer with nothing to publish and the row has reached 512; k refused calls use up k numbers then, and at most 65 otherwise |
| RefusedSends.WaitingIsReached | src/session.c:713-778 | by the automatic trigger a fresh session comes to wait for the peer with nothing to publish |
| RekeyLink.FeedTakes | src/session.c:550-672 | a frame that is next in its direction is delivered, and a REKEY in it folds and rotates; a control frame moves neither ratchet nor flag |
| RekeyLink.EmitsFrame | src/session.c:695-836 | the effect of a successful emission on ratchet, flags and carrier |
| RekeyLink.OneRekeyPerBurst | src/session.c:713-819 | a side that has sent a REKEY sends no other within 65 frames of the last quiescent state |
| RekeyLink.EmitForward | src/session.c:723-822 | an emission keeps the invariant of its own direction |
| RekeyLink.EmitBackward | src/session.c:723-778 | an emission keeps the invariant of the opposite direction |
| RekeyLink.FeedForward | src/session.c:613-647 | a delivery keeps the invariant of the direction it came on, rotation included |
| RekeyLink.FeedBackward | src/session.c:650-672 | a delivery keeps the invariant of the opposite direction |
| RekeyLink.Settled | src/session.c:613-822 | with nothing in flight or left to publish, the ends agree, the cached pair is current, and nobody waits |
| RekeyToken.PublishesOnce | src/session.c:723-778 | a side that keeps to the bound publishes only pairs that it has not published |
| RekeyToken.LooseForward | src/session.c:723-822 | whatever a side builds toward a bounded peer, each pair of the peer stays in one place: unpublished, on its way, cached, or the target of a REKEY on its way |
| RekeyToken.LooseBackward | src/session.c:723-778 | so it does when the bounded peer builds a frame |
| RekeyToken.LooseTake | src/session.c:613-647 | and when the bounded peer takes a frame, rotation included |
| RekeyToken.LooseHear | src/session.c:650-672 | and when the other side takes one |
| RekeyToken.LooseSettled | src/session.c:613-822 | with nothing in flight or left to publish, this direction agrees too |
| RekeySystem.EstablishedQuiet | src/session.c:278-307 | two sessions just established are a starting state |
| RekeySystem.NextKeeps | src/session.c:613-1015 | every step of the two-party system, polls with their control frames and re-sends included, keeps the invariant as long as one side keeps to the bound |
| RekeySystem.QuiescentAgrees | src/session.c:613-865 | a quiescent state that is reached agrees in both directions and is a starting state again |
| RekeyAgreement.RekeyAgreement | src/session.c:613-836 | if in every stretch between quiescent states one side builds at most 65 frames, then at every quiescent state of every run, refused payloads and re-sends included, root, chain and number agree in both directions (up to the payloads refused last), cached pairs are current, nobody waits, and all texts taken have arrived |
| RekeyAgreement.EmptyChannelAgrees | src/session.c:613-836 | in every state of such a run a direction with nothing in flight agrees |
| RekeyAgreement.EveryFrameOpens | src/session.c:550-672 | in such a run every DATA frame delivered decrypts to its text, and every REKEY is aimed at the pair its receiver still owns |
| RekeyAgreement.HeardInOrder | src/session.c:550-836 | in such a run the texts heard are a prefix of the texts that the transport took, re-sent ones included |
| RekeyAgreement.RekeyAgreesIff | src/session.c:613-819 | after one REKEY the two ends agree exactly if the sender's copy of the receiver's pair was current |
| RekeyProgress.DueRekeyCompletes | src/session.c:613-819 | from every quiescent state of a reliable pair, a re-key that is due comes about: a run of at most five frames folds the direction at both ends, with a secret for the peer's pair and a coin drawn in the run, whether the peer has published before or not and whether or not its own re-key crosses |
| Emissions.EmissionNeedsRoom | src/session.c:711-787 | for every active session: a text is emitted exactly if it has at most 129 bytes beside a KEMPUB (141 with AES-GCM), 248 (260) beside a REKEY, 1319 else, as the branch guards choose; otherwise the whole state that is left, branch by branch |
| Emissions.RetryPublishes | src/session.c:723-778 | which texts after a failed emission carry the header that did not go out |
| Emissions.FailureSticks | src/session.c:723-778 | exactly when a failed emission leaves a side waiting for a pair with nothing left to publish |
| Emissions.StuckRun | src/session.c:711-1032 | such a side publishes nothing and has no re-key pending over every run of calls without a frame of the peer |
| Emissions.PeerEndsWait | src/session.c:650-671 | a pair of the peer ends the wait exactly if its point is contributory |
| Emissions.LongTextSticks | src/session.c:723-787 | a fresh session that has sent 64 short texts gets there by one of 142 bytes |
| LongBurst.LongBurstDiverges | src/session.c:659-819 | a run of two fresh sessions over FIFO channels, texts and deliveries only, in which both sides build 66 frames between quiescent states, after which the two ends of a direction disagree with nothing in flight |
| StaleRekey.SecondRekeyDiverges | src/session.c:659-768 | a shorter such run in which both sides are forced to re-key again after they have sent a REKEY |
| Carriers.CallKeeps | src/session.c:711-865 | every operation keeps awaiting_peer and peer_have apart, stored points contributory, payloads plain, and a parked carrier in place |
| Carriers.EmitKeeps | src/session.c:711-834 | a lossy payload frame carries no header; a built carrier is parked |
| Carriers.ParkedStays | src/session.c:711-849 | from whatever state a fresh lossy session reaches: until the transport accepts it, a parked carrier survives every run, and whatever is emitted is that frame |
| Carriers.PendingIffAttached | src/session.c:713-918 | in every state that a fresh lossy session reaches with no carrier parked, a re-key is pending exactly if the carrier build attaches a header |
| ResendPlans.FailedBranch | src/session.c:723-778 | the header that is due after k texts were passed over: at most two pairs, and a REKEY for ever |
| Resending.PollStep | src/session.c:964-988 | one poll: which text is re-emitted, under which number and key, what becomes of the buffer and the flags; the re-sent text is asked for again exactly if the request names the current generation; if no text fits, the service ends |
| Resending.PollEmitsIff | src/session.c:964-988 | a poll emits exactly if one of the texts asked for fits beside the header that is due when its turn comes |
| Resending.ServiceFollowsPlan | src/session.c:964-988 | for an older generation, polls emit the planned texts under the planned numbers, and one more poll ends the service; with a free slot the other texts stay, followed by the re-sent ones |
| Resending.AllResentIff | src/session.c:964-988 | the service re-sends every text it was asked for, each once, exactly if the plan gives none up and evicts none; without the automatic trigger and with no text asked for in the oldest slot of a full buffer, exactly under the closed condition |
| ResendPlans.AllFitIff | src/session.c:723-778 | the closed condition on lengths and flags under which a plan sends every text |
| ResendPlans.PlanInOrder | src/session.c:964-988 | texts that fit beside any header are all sent, in order and under consecutive numbers |
| Resending.ServiceEndsIff | src/session.c:964-988 | the service of a request for an older generation always ends; one for the current generation, of texts that fit beside any header, ends exactly if none of them is buffered |
| Recoveries.PairBlocks | src/session.c:650-671 | a life in which a text is asked for, does not fit beside the pair that is owed to the peer, and is given up |
| Recoveries.LifeKeepsTags | src/session.c:151-226 | over every life of a session, re-establishments under fresh roots included, no two buffered texts have the same tag, and those of its own generation are behind its next number |
| Recoveries.FailureAsks | src/session.c:570-582 | a failed decrypt asks for the current generation from the next expected number on |
| Recoveries.CorruptedFrameLoops | src/session.c:964-988 | one corrupted frame, and its request polled at once, make the sender re-send for ever |
| Recoveries.OlderReached | src/session.c:151-166 | a life with one re-establishment in which a request for an older generation asks for a text |
| Recoveries.RecoveryDelivers | src/session.c:934-988 | after a failed decrypt and a re-establishment under a fresh root, the polled request is served with exactly the texts that the peer had buffered under the old generation from the failed number on, and they are delivered in order and once; a request that the peer has pending itself goes out first |
| Recoveries.StaleAck | src/session.c:151-166 | an acknowledgement that is due at a re-establishment names the new generation with the old number, and what it makes the peer drop |
| Acks.AckedIff | src/session.c:603-611 | for a fresh session and every run in which delivered frames leave room, everything up to the acknowledged number was delivered exactly if no key is stored |
| Acks.AckDrops | src/session.c:188-206 | the texts that the acknowledgement makes the sender drop, and which of them were not delivered |
| Acks.AckDropsUndelivered | src/session.c:603-611 | two texts of which the second arrives first: the first is dropped undelivered |
| Resending.ResentTextKept | src/session.c:971-982 | a text that fits is re-sent right, and buffered unchanged exactly if it was not in the oldest slot of a full buffer (or was all zeros) |
| Tunnel.TTTunnelConn.OutAdd | src/tunnel.c:922-935 | appends unless 128 KiB would be exceeded; growing keeps the bytes |
| Tunnel.TTTunnelConn.FlushOut | src/tunnel.c:944-957 | the whole effect on buffer, window and transport, and which of three outcomes |
| Tunnel.TTTunnelConn.DrainOut | src/tunnel.c:965-984 | the whole effect on buffer, window, transport and socket, and whether the connection lives; what that means is TunnelProgress.DrainEnds |
| Tunnel.TTTunnelConn.GiveCredit | src/tunnel.c:993-1003 | credit goes back in batches of four, as two bytes |
| Tunnel.CreditRoundTrip | src/tunnel.c:997-1007 | the two bytes are read back as the count that was written |
| Tunnel.TTTunnelConn.ApplyCredit | src/tunnel.c:1006-1012 | parses the credit (one frame if it has fewer than two bytes), reopens the window, and frees a connection whose peer is gone |
| Tunnel.TTTunnelConn.PeerGone | src/tunnel.c:1058-1068 | frees at once or waits for outstanding credit |
| Tunnel.TTTunnelConn.Free | src/tunnel.c:763-777 | an empty entry |
| FlowControl.FlushKeeps | src/tunnel.c:944-957 | a flush neither loses nor reorders bytes, counts every frame, stays within the window, and reports success exactly if nothing is left |
| FlowControl.DrainKeeps | src/tunnel.c:965-984 | so does a drain; at most one read stays buffered, and none at end of file |
| FlowControl.StreamSafety | src/tunnel.c:914-1068 | over every run, delivered ++ in flight ++ buffered = read; at most one read is buffered; a FIN caused by end of file arrives after all bytes |
| FlowControl.CreditConserved | src/tunnel.c:944-1012 | over every run, unacknowledged = in flight + due + credit on its way, at most 16, with at most 3 due |
| FlowControl.NoDeadlock | src/tunnel.c:944-1012 | once the channels have drained, one accepted frame empties a sender's buffer |
| FlowControl.AllCanArrive | src/tunnel.c:944-1012 | from every reachable state in which the sender lives, some continuation delivers every byte that was read |
| TunnelProgress.FlushEnds | src/tunnel.c:944-957 | a flush ends empty, at a full window or at a refusal, or at a fatal answer, and every answer before took a frame |
| TunnelProgress.DrainEnds | src/tunnel.c:965-984 | a drain ends alive exactly with bytes behind a full window or a refusal or with a socket that has nothing to read; at end of file exactly if everything is sent and the socket says so; and fails only on a fatal answer or a broken socket |
| TunnelProgress.WillingPoll | src/tunnel.c:965-1170 | with the channels settled and a transport that takes frames, a poll sends some of what is left, or gets to the end of the socket and sends the FIN |
| TunnelProgress.EverythingArrives | src/tunnel.c:944-1170 | from every reachable state in which the sender lives, and for everything that its socket has still to say before end of file, some continuation delivers all of it and then the FIN |
| TunnelProgress.FinishesIffSent | src/tunnel.c:1121-1170 | once the sender has stopped, the far end is ever told exactly if it was told or the FIN is on its way |
| TunnelProgress.LostFin | src/tunnel.c:895-909 | a run in which the FIN is refused: all bytes are delivered and the far end is never told |
| FlowControl.FreedWhenSettled | src/tunnel.c:1006-1068 | a connection told that its peer is gone is freed exactly when credit for all its frames is back |
| TunnelSend.TcpSendEx | src/tunnel.c:810-894 | carriers, then the frame: the whole effect on session and transport |
| TunnelSend.DrainInto | src/tunnel.c:836-844 | the carrier loop |
| TunnelSend.SendContract | src/tunnel.c:810-894 | on a lossy session a payload that conn_read_max allows never fails for good; success exactly if the frame itself was accepted, after at most two carriers; otherwise only carriers were |
| TunnelSend.AcceptedSucceeds | src/tunnel.c:810-894 | a transport that takes the next three packets takes the frame |
| TunnelSend.TwoCarriersSuffice | src/tunnel.c:836-844 | with none parked before, two accepted carriers leave no re-key pending |
| ChessRules.AttackedIffCapturable | src/chess.c:53-326 | a square held by the other side is attacked exactly if some piece may make the capturing move |
| ChessBoards.TTChess.constructor | src/chess.c:13-32 | the starting position |
| ChessBoards.TTChess.SquareAttacked | src/chess.c:53-112 | true exactly if the square is attacked under the rules |
| ChessBoards.TTChess.LineAttacked | src/chess.c:84-96 | the first piece on a line decides |
| ChessBoards.TTChess.IsInCheck | src/chess.c:114-121 | whether the first king found is attacked; false without a king |
| ChessBoards.TTChess.LeavesSelfInCheck | src/chess.c:125-134 | judged on the board after the move, en passant victim and promotion aside |
| ChessBoards.TTChess.HasAnyLegalMove | src/chess.c:139-238 | true exactly if some move that the rules allow, castling aside, is safe |
| ChessBoards.TTChess.SliderHasMove | src/chess.c:200-234 | the lines of rook, bishop and queen cover exactly their moves |
| ChessBoards.TTChess.PawnHasMove | src/chess.c:146-171 | steps, captures and en passant cover exactly the pawn's moves |
| ChessBoards.TTChess.IsPseudoLegal | src/chess.c:255-326 | true exactly if the rules allow the move, castling and check aside: the predicate the generator meets |
| ChessBoards.TTChess.LineIsOpen | src/chess.c:308-326 | the sign arithmetic and the path scan accept exactly the open lines |
| ChessBoards.TTChess.CastlingTest | src/chess.c:284-307 | right, empty squares, own rook and unattacked way |
| ChessBoards.TTChess.IsLegal | src/chess.c:246-328 | what tt_chess_move accepts |
| ChessBoards.TTChess.Move | src/chess.c:244-394 | a rejected move changes nothing; an accepted one leaves all 64 squares, rights, en passant file, side to move and verdict as stated for its kind |
| ChessBoards.PlayedLeaves | src/chess.c:330-379 | castling moves king and rook and empties their squares, an en passant capture changes three squares, every other move two, a pawn on the last rank is a queen; the other side is to move; the en passant file is that of a double step and else none; a right is lost exactly if its king moves or a rook leaves or is taken on its corner |
| ChessBoards.PlayedJudged | src/chess.c:381-391 | checkmate for the mover, stalemate or neither, by the moves and the check of the side to move |
| ChessBoards.TTChess.Judge | src/chess.c:381-391 | checkmate or stalemate exactly if no safe move exists |
| ChessCastling.StepNotAttacked | src/chess.c:284-307 | leaving file e opens no line that did not attack it already |
| ChessCastling.CastlingStepIsSafe | src/chess.c:284-307 | if a castling test passes for the only king, on file e, its step toward the rook is accepted and safe |
| ChessCastling.TryKeeps | src/chess.c:330-376 | every move keeps at most one king a colour, at home while it may castle |
| ChessCastling.OmittingCastlingIsHarmless | src/chess.c:139-391 | in every position reachable from the start, the generator finds a move exactly if there is one, castling included |
| ChessMoves.CastlingIsFromHome | src/chess.c:281-339 | in play castling is done by the king on file e and the own rook in the corner, with nothing between them and no attack on the king's way; the king ends on file 6 or 2, the rook on file 5 or 3, both home squares are empty and the other 60 squares as before |
| ChessMoves.PassantTakesPawn | src/chess.c:341-350 | in play an en passant capture takes an enemy pawn on the file of the last double step, and changes three squares |
| ChessMoves.RightsAreHistory | src/chess.c:356-376 | a castling right is there exactly as long as its king has not moved and no move has left or entered its corner |
| ChessPassant.JudgedAsPlayed | src/chess.c:123-134 | every move but an en passant capture is judged on the board that it leaves, promotion included |
| ChessPassant.VerdictRight | src/chess.c:139-238 | where no pawn may capture en passant, the generator finds a move exactly if one can be played without leaving the own king in check |
| ChessPassant.PassantMisjudged | src/chess.c:123-134 | a position that is called checkmate although an en passant capture is a way out |
| SessionFiles.Buf.Put | src/session_store.c:45-57 | appends, doubling the capacity as needed |
| SessionFiles.RatchetPut | src/session_store.c:72-83 | prints one direction behind what is there |
| SessionFiles.SessionPut | src/session_store.c:85-125 | prints one session, the ring from its oldest entry on |
| SessionFiles.SaveTable | src/session_store.c:127-205 | what becomes of the file: removed, left as it was (with a key, over 4 MiB), or written with these bytes |
| SessionFiles.RatchetGet | src/session_store.c:208-229 | succeeds and fails exactly as the parser, with its value and cursor |
| SessionFiles.SessionGet | src/session_store.c:231-300 | fills the entry as the parser says, or leaves its active flag |
| SessionFiles.LoadTable | src/session_store.c:332-348 | fills the table with what the file holds, up to the first malformed entry |
| StoreFormat.RatchetRoundTrip | src/session_store.c:72-229 | parsing a printed direction gives it back and stops behind it |
| StoreFormat.BodyRoundTrip | src/session_store.c:85-300 | parsing a printed session gives it back and stops behind it |
| StoreLayout.RatchetLayout | src/session_store.c:71-83 | the offset of every field of a direction and of its stored keys, numbers with the high byte first |
| StoreLayout.RekeyLayout | src/session_store.c:91-106 | the offset of every field of the re-key state |
| StoreLayout.SentLayout | src/session_store.c:112-119 | the buffered texts one behind the other: generation, number, length, bytes |
| StoreLayout.RelLayout | src/session_store.c:120-129 | the offset of every field of the recovery state |
| StoreLayout.BodyLayout | src/session_store.c:85-131 | where each part of a session lies |
| StoreLayout.FileLayout | src/session_store.c:14-153 | the file: magic, count, and the active sessions in the order of their friend numbers, each behind its number, with nothing behind the last |
| SessionStore.StoreRoundTrip | src/session_store.c:127-348 | written exactly if 1 to 255 sessions are active and, with a key, they take at most 4 MiB; removed exactly with 0 or 256; within 4 MiB, loading restores each at its friend number with ring head 0, leaves the others and consumes all bytes |

## Left out

- The handshake (INIT and REPLY frames, retransmission, collision, verification code): the re-key theorem starts at an established session, and a re-establishment is what reestablish_preserve and establish leave, with a fresh root.
- KeyGeneration.KeyGen: that f always has an inverse modulo q ("always works" in the source) would need that x^p - x - 1 is irreducible modulo q; the contract says what holds exactly when it has one. It gives up when its list of draws is used up, where the code goes on drawing.
- Real X25519, AEAD, BLAKE2b and SHA-512, and timing: symbolic or arbitrary functions here.
- The byte layout of frames (src/crypto/frame.c): frames are values; only their length is computed.
- The 32-bit truncation of the generation tag, and wrap-around of 32-bit numbers and the 16-bit frame counter: generations are compared as values and counters are unbounded.
- The copy of the last incoming frame and the two replay and reorder hooks: nothing else reads them.
- Output buffers smaller than a frame: results are returned as values.
- Encode, Decode and the polynomial methods of the key encapsulation: results that C writes through advancing pointers are returned as sequences; the sort, the division steps, the convolution and the scratch arrays stay arrays.
- UDP forwarding, tunnel signalling, connection set-up, the connect-time buffer, lost ACKs and partial socket writes: the stream theorems assume an open connection whose peer takes what it is given.
- One direction of a tunnel connection is modelled at a time.
- Delivery.RunDelivers: one stretch between two REKEYs of the sender; the fold at its end drops the stored keys of the stretch, and a new one begins.
- Completeness.NothingIsLost: likewise up to the sender's first REKEY.
- SessionFiles.LoadTable: of the entry where reading stops only the active flag is stated, because C fills an entry field by field.
- SessionFiles.SessionGet: on a malformed entry C may have overwritten some fields; the contract says only that the entry does not become active.
- Failing file operations and the cipher of the session store: the model starts and ends at the plaintext, and knows only whether there is a key and how many bytes it adds.
- Square notation, resignation and the game wire protocol of chess: easy codecs.
- Tox callbacks, sockets, files, audio, video and the user interface: no algorithmic core.
