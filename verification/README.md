# A verified model of the OTA bootloader and its CycloneCRYPTO/Common code

This project models five parts of the repository and proves what they are for.

- **The update path** (`src/main.c`, `tools/image_pack.py`, `crc32.c`). `Image` holds the packed image and the
  checks of the bootloader. `OtaMachine` is the protocol: flash is a byte array, and one step is one sector erase, one
  quad-word program, one read-only check or one mailbox write. Every step can succeed, fail leaving arbitrary bytes in
  the addressed cells, or be cut by a warm reset that does the same. One run covers any number of boots. `Bootloader`
  is the code itself, an object that erases, programs and writes the mailbox in place; each of its methods is proved
  to take exactly the steps of the machine, so what `OtaSafety`, `OtaWear` and `OtaProgress` prove of every run holds
  of every boot; `OtaMailbox` says what a run leaves in the mailbox. `Crc32` has the bitwise loop, the table-driven
  context and the detection theorems.
- **GCM** (`gcm.c`). `Gf128` is section 6.3 of NIST SP 800-38D bit by bit, `Shoup` the two reducing shifts, `Gcm` the
  multiples-of-H table and `gcmMul` for both table widths, `GcmSpec` sections 6 and 7, `GcmMode` the two entry points.
- **Paths** (`path.c`). `PathSpec` says where a path leads; `PathForm` says what a canonical path looks like
  and `PathUnique` when it is the only one for its place; `PathStep` is the effect of one token on the text written so
  far; `Path` is the in-place two-pass rewriter, with its read and write cursors over one buffer. `PathMatch` is the
  wildcard matcher.
- **Dates** (`date_time.c`). `Calendar` is the Gregorian calendar, defined by listing the days one after the other;
  `DateTime` is the library's integer divisions, with their 32-bit wrap-around.
- **Ciphers and modes.** AES (`AesTables`, `AesField`, `AesSBox`, `AesSpec`, `AesWords`, `Aes`), ARIA (`AriaTables`, `AriaSpec`,
  `Aria`), Camellia (`CamelliaTables`, `CamelliaSpec`, `Camellia`), CCM (`CcmSpec`, `CcmStored`, `Ccm`), ChaCha and its AEAD
  (`ChachaSpec`, `Chacha`, `ChachaPoly`), Blowfish, CAST-128 and CAST-256 (`Feistel`, `Blowfish`,
  `CastRounds`, `Cast128`, `Cast256`).

What the code and its specification have in common, a table, a constant or the order of two fields, is fixed from
outside: by laws that single it out (`GcmField`, `SBoxLaws`, `FeistelForms`), by the wording of the standard
(`CamelliaVectors`, `AriaVectors`), and by published examples followed step by step (`AesVectors`, `AriaVectors`,
`CamelliaVectors`, `ChachaVectors`, `ModeVectors`; `HexBlocks` writes their blocks as numbers).

`Words`, `Folds`, `Rotation` and `BlockOps` hold what these share: byte order, folding over chunks, the 128-bit
rotations, and the 16-byte block. Words are bit-vectors (`bv8`, `bv32`, `bv128`), so wrap-around is the machine's;
`ROL32` and `ROR32` are ordinary rotates.

Seven results show where a promise ends.

- The comment "keep existing app" on the failure path holds only for images refused before the erase
  (`OtaProgress.FailureKeepsAppIffRejected`).
- The packer accepts payloads larger than the bootloader does (`Image.PackedImageAccepted`).
- A timestamp maps to a date and back exactly in the range the 16-bit year field allows
  (`DateTime.TimestampRoundTrip`, `DateTime.ConvertUnixTimeToDate64`).
- With a 12-byte nonce the ChaCha block counter runs into the nonce exactly beyond 2^32 blocks
  (`ChachaSpec.NonceKeptIff`, `ChachaPoly.NonceKeptForPayload`).
- CCM stores the length of the additional data as the standard does exactly below 2^32 bytes
  (`CcmSpec.StoredIsStandardIff`). What it chains is prefix-free exactly for additional data of less than
  2^32 + 0xFF00 bytes (`CcmStored.PrefixFreeIff`); two lengths collide exactly when both are at least 0xFF00 and agree
  in their low 32 bits (`CcmStored.CollideIff`). Such inputs need a `size_t` of 64 bits.
- The four marks of a completed update are separate mailbox writes. A finished run has all four exactly when no attempt
  was given up and no reset fell between two of them (`OtaMailbox.MarkedInFullIff`); such a reset leaves the new
  firmware with one, two or three of them (`OtaMailbox.CutLeavesMarks`).
- The prefix test of the ".." branch takes a name such as "..a" for "..". The result is the shortest path to its place
  exactly as long as that does not happen (`PathUnique.ShortestIff`); where it does, two paths to one place can differ
  in canonical form (`PathUnique.MisreadName`).

## Model

| member | source | states |
|---|---|---|
| Crc32.Crc32Calc | src/main.c:262-276 | the bitwise loop returns the CRC of the whole message |
| Crc32.TableEntry | lib/cyclone_boot/core/crc32.c:42-75 | every one of the 256 table words is eight bit-steps of its index |
| Crc32.FeedByteByTable | lib/cyclone_boot/core/crc32.c:140-161 | one shift and one table look-up feed a byte exactly as eight bit-steps do |
| Crc32.Crc32Context.Update | lib/cyclone_boot/core/crc32.c:140-161 | the table loop, fed any chunk, advances the digest as the bitwise loop would |
| Crc32.Crc32Context.Final | lib/cyclone_boot/core/crc32.c:169-174 | the four result bytes are the digest in little-endian order and nothing after them changes |
| Crc32.Crc32Stream | lib/cyclone_boot/core/crc32.c:127-174 | a table-driven context that is initialised, fed any sequence of chunks and finished gives the bitwise CRC of the whole message, as digest and as four bytes |
| Crc32.Crc32Compute | lib/cyclone_boot/core/crc32.c:100-120 | the one-call form writes the bitwise CRC of its data |
| Crc32.BitStepLinear | src/main.c:267-274 | a bit-step distributes over XOR |
| Crc32.BitStepInjective | src/main.c:267-274 | a bit-step loses no information |
| Crc32.FeedWindow | src/main.c:265-275 | up to 32 message bits fed one by one equal one XOR of the packed bits followed by that many bit-steps |
| Crc32.BitBurstDetected | src/main.c:262-276 | two bit strings that differ only inside some 32 consecutive bits never reach the same register |
| Crc32.BurstDetected | src/main.c:262-276 | two byte messages that differ only inside some 32 consecutive bits, at any bit offset, have different CRCs |
| Crc32.FourByteBurstDetected | src/main.c:262-276 | two messages that differ only inside some four consecutive bytes have different CRCs |
| Crc32.ResidueZero | src/main.c:262-276 | a message followed by a little-endian word has CRC zero exactly when that word is its CRC, from any starting register |
| Crc32.PrependedByteDetected | src/main.c:262-276 | whatever byte is put in front of a message, a zero byte as well, the CRC changes |
| Crc32.KnownCrcs | src/main.c:262-276 | the CRC of nothing is the preset 0xFFFFFFFF, that of "123456789" is 0x340BC6D9 |
| Image.PackedImageAccepted | tools/image_pack.py:60-119 | the packed bytes at the start of Bank 2, whatever follows, are accepted exactly when the payload fits the app region; then size, CRC and payload are read back as packed |
| Image.AcceptedIff | src/main.c:167-198 | an image is accepted if and only if its 64 header bytes have CRC zero, its type is zero, its size is 1 to 119 sectors, and payload and stored word together have CRC zero |
| Image.OtherTypeRejected | src/main.c:182-184 | an image with a type other than zero is rejected |
| Image.DamagedHeaderRejected | src/main.c:172-175 | when the header of an accepted image is damaged inside some 32 consecutive bits of its 64 bytes, the image is rejected, whatever follows the header |
| Image.DamagedPayloadRejected | src/main.c:186-195 | when an accepted image is damaged inside some 32 consecutive bits of its payload and the word behind it, it is rejected |
| Image.HeaderReadsBack | tools/image_pack.py:60-119 | every field of the packed header reads back little-endian from its offset and the reserved bytes are zero |
| Image.Layout | src/main.c:29-40 | the places in flash: two banks of 128 sectors of 8 KB, the application from sector 8 to sector 126 |
| OtaSafety.OnlyAppRegionChanges | src/main.c:196-252 | in every run, with every fault and reset, bootloader sectors, config sector and Bank 2 stay as they were and the staged image stays valid or invalid as it was |
| OtaSafety.NoRequestNoChange | src/main.c:116-138 | boots without a request change neither flash nor mailbox |
| OtaSafety.RejectedImageNoChange | src/main.c:171-194 | a rejected image leaves all flash unchanged; the mailbox can only lose its request bit |
| OtaSafety.DamagedHeaderNoChange | src/main.c:167-184 | no run of boots on an image with a damaged header or of another type changes a byte of flash |
| OtaMachine.RequestedIff | src/main.c:116-117 | a request stands exactly when the signature word is 0x1B241671 and the lowest flag bit is set |
| OtaSafety.RequestSurvivesUntilSettled | src/main.c:125-134 | while the request stands the mailbox is untouched; it falls only when the image was rejected, when an attempt met a flash error and no reset came before the request was dropped, or when the image is fully installed; and such an attempt always drops it |
| OtaSafety.FinishedMeansInstalled | src/main.c:211-252 | whatever resets and flash errors went before, unless some attempt ran on to its failure, the boot that finishes leaves the app region equal to the payload, blank behind it, and the request cleared |
| OtaSafety.ProgramsBlankFlash | src/main.c:226-231 | whenever a quad-word is about to be programmed, its sixteen cells are blank |
| OtaWear.NeverProgramsTwice | src/main.c:206-241 | over every run no quad-word is programmed twice without an erase of its sector between |
| OtaProgress.MarksMeaning | src/main.c:126-130 | the four mailbox writes together keep the signature, set OK, clear the request and the confirmation, keep all other flags and count the boot |
| OtaProgress.FirstMarksMeaning | src/main.c:126-130 | the flags after the first, the second and the third of the four writes |
| OtaMailbox.MarksInOrder | src/main.c:126-134 | after every run the mailbox is the old one with a first part, of none to four, of the mark writes applied |
| OtaMailbox.MarkedInFullIff | src/main.c:116-138 | a finished run has all four marks if and only if no attempt was given up and no reset fell between two marks; without a give-up there is at least the first |
| OtaMailbox.CutLeavesMarks | src/main.c:126-138 | the run reset after the first, second or third mark boots the installed firmware with exactly that many marks |
| OtaProgress.RecoversFromEveryCut | src/main.c:117-138 | after any history that leaves the request standing, a reset followed by an undisturbed boot installs the image and marks the mailbox |
| OtaProgress.PackThenInstall | src/main.c:166-252 | a packed payload of 1 to 119*8192 bytes is installed: app region equal to payload then 0xFF up to the config sector, nothing else changed, mailbox marked |
| OtaProgress.VerifyCatchesBurst | src/main.c:245-249 | a copy that differs from the payload inside some 32 consecutive bits fails the verification |
| OtaProgress.FirstProgramFails | src/main.c:226-231 | the run where the first program step fails: the boot ends without the request and the old first byte is lost |
| OtaProgress.FailureKeepsAppIffRejected | src/main.c:131-134 | failed boots keep the flash in every run if and only if the image is rejected before the erase |
| Bootloader.Board.ValidateBank2 | src/main.c:166-194 | the header, size, type and payload checks on flash accept exactly the images of the model, with their size and CRC |
| Bootloader.Board.EraseApp | src/main.c:196-209 | the erase takes exactly the machine's steps over sectors 8 to 126, with its three outcomes |
| Bootloader.Board.FillQuad | src/main.c:217-224 | the buffer holds the next 16 payload bytes, padded with 0xFF at the end |
| Bootloader.Board.ProgramChunk | src/main.c:216-241 | one pass of the copy loop is one program step of the machine |
| Bootloader.Board.CopyPayload | src/main.c:211-241 | the whole copy loop takes exactly the machine's program steps |
| Bootloader.Board.VerifyCopy | src/main.c:245-252 | the verification takes the machine's step to success or failure |
| Bootloader.Board.HandleOtaUpdate | src/main.c:166-252 | the whole handler is a run of the machine from its first step, for every outcome of every flash operation |
| Bootloader.Board.MarkOnce | src/main.c:127-130 | each of the four mailbox writes is one step, each of which a reset can cut |
| Bootloader.Board.DropRequest | src/main.c:131-134 | the failure path clears the request and nothing else |
| Bootloader.Board.Boot | src/main.c:113-138 | a boot is a run of the machine from its start phase to either the jump or the next reset |
| Bootloader.Board.PowerCycles | src/main.c:113-138 | any number of boots in a row make up one run of the machine, and flash outside the app region is as it was |
| Gf128.AccumulateIsHorner | lib/cyclone_crypto/aead/gcm.c:498-576 | the shift-and-add product of section 6.3 equals Horner evaluation from the other end |
| Gf128.ProductLinearRight | lib/cyclone_crypto/aead/gcm.c:134-182 | the product distributes over XOR in the table's operand |
| Gf128.ProductLinearLeft | lib/cyclone_crypto/aead/gcm.c:134-182 | the product distributes over XOR in the bit operand |
| GcmField.ProductCommutes | lib/cyclone_crypto/aead/gcm.c:498-576 | x times y is y times x, for bit strings of all lengths |
| GcmField.BlockProductCommutes | lib/cyclone_crypto/aead/gcm.c:498-576 | the product of blocks commutes |
| GcmField.BlockProductOfOne | lib/cyclone_crypto/aead/gcm.c:498-576 | the block 80 00 ... 00 is the one of the product |
| GcmField.Reduction | lib/cyclone_crypto/aead/gcm.c:44-83 | the last bit times x is the block E1 00 ... 00 |
| Shoup.MulX4IsFourShifts | lib/cyclone_crypto/aead/gcm.c:44-83 | one 4-bit shift and one look-up in the 16-word reduction table multiply by x four times |
| Shoup.MulX8IsTwoNibbles | lib/cyclone_crypto/aead/gcm.c:44-83 | one 8-bit shift and one look-up in the 256-word reduction table equal two nibble steps |
| Shoup.HornerOfNibble | lib/cyclone_crypto/aead/gcm.c:512-549 | four Horner steps split into a multiple of H and one reducing 4-bit shift |
| Shoup.HornerOfByte | lib/cyclone_crypto/aead/gcm.c:550-568 | eight Horner steps split into a multiple of H and one reducing 8-bit shift |
| Gcm.MultipleReversed | lib/cyclone_crypto/aead/gcm.c:120-182 | the doubling-and-adding recurrence of the table, read at the bit-reversed index, is the index's bits times H |
| Gcm.GcmContext.NextMultiple | lib/cyclone_crypto/aead/gcm.c:135-182 | the row computed from earlier rows is the next multiple of H, for odd and even indexes |
| Gcm.GcmContext.Init | lib/cyclone_crypto/aead/gcm.c:94-186 | accepts exactly 16-byte block ciphers; then every table row is its multiple of H, and on refusal nothing changes |
| Gcm.GcmContext.StepNibble | lib/cyclone_crypto/aead/gcm.c:512-549 | one nibble of the loop is four Horner steps with H |
| Gcm.GcmContext.StepByte | lib/cyclone_crypto/aead/gcm.c:550-568 | one byte of the loop is eight Horner steps with H |
| Gcm.GcmContext.Mul | lib/cyclone_crypto/aead/gcm.c:498-576 | for both table widths the block becomes its product with H as section 6.3 of NIST SP 800-38D defines it bit by bit |
| GcmMode.IncCounter | lib/cyclone_crypto/aead/gcm.c:604-618 | the last 32 bits count up and wrap, the first 96 stay |
| GcmMode.Absorb | lib/cyclone_crypto/aead/gcm.c:277-290 | the block loop with its short last block is GHASH of the zero-padded data |
| GcmMode.FormPreCounter | lib/cyclone_crypto/aead/gcm.c:226-266 | the pre-counter block of section 7.1, step 2, for IVs of 12 bytes and of every other length |
| GcmMode.EncryptBlocks | lib/cyclone_crypto/aead/gcm.c:292-316 | the fused loop computes GCTR of the plaintext and GHASH of the ciphertext |
| GcmMode.Encrypt | lib/cyclone_crypto/aead/gcm.c:204-333 | GCM-AE of section 7.1, in place or not; bytes behind the tag untouched; on a bad length nothing is written |
| GcmMode.DecryptBlocks | lib/cyclone_crypto/aead/gcm.c:441-465 | the fused loop computes GCTR of the ciphertext and GHASH of the ciphertext as it was |
| GcmMode.Decrypt | lib/cyclone_crypto/aead/gcm.c:351-489 | the plaintext of section 7.2, accepted exactly when the tag equals the recomputed one |
| GcmMode.EncryptThenDecrypt | lib/cyclone_crypto/aead/gcm.c:204-489 | encrypting and then decrypting returns no error and the plaintext whenever encryption accepted its parameters |
| GcmSpec.GctrTwice | lib/cyclone_crypto/aead/gcm.c:292-316 | counter mode is its own inverse from every counter block, short last block included |
| GcmSpec.DecryptionUndoesEncryption | lib/cyclone_crypto/aead/gcm.c:351-489 | with the same IV the second ciphertext is the plaintext, for every block function |
| GcmField.LengthBlockReads | lib/cyclone_crypto/aead/gcm.c:318-321 | the length block reads back big-endian: the first eight bytes are the first length, the last eight the second |
| GcmField.KnownLengthBlock | lib/cyclone_crypto/aead/gcm.c:318-321 | the length block of no data and 128 bits |
| GcmField.HashInputReads | lib/cyclone_crypto/aead/gcm.c:277-325 | what is hashed begins with the additional data, goes on at the next block with the ciphertext, is zero in between, and ends in both lengths in bits |
| GcmField.HashInputDetermines | lib/cyclone_crypto/aead/gcm.c:277-325 | different pairs of additional data and ciphertext, below 2^64 bits each, are hashed as different blocks |
| GcmField.IvInputReads | lib/cyclone_crypto/aead/gcm.c:237-265 | what is hashed of an IV is the IV, zeros to eight bytes before the end, and its length in bits |
| ModeVectors.GcmLengths | lib/cyclone_crypto/aead/gcm.c:217-224 | which lengths of IV and tag are accepted, one by one |
| ModeVectors.GcmExample | lib/cyclone_crypto/aead/gcm.c:204-333 | with the block cipher values of AES, a published example of one block has its ciphertext and tag |
| PathSpec.MeaningPreserved | lib/common/path.c:163-336 | for every string the canonical text leads where the original leads |
| PathSpec.Idempotent | lib/common/path.c:163-336 | canonicalising twice changes nothing more |
| PathSpec.PushMeaning | lib/common/path.c:206-322 | one token, ".", ".." or a name, has on the components the effect that walking it has |
| PathSpec.ShowReadsBack | lib/common/path.c:310-322 | written components are read back as the same components, root and final slash included |
| PathForm.NormalIsCanonical | lib/common/path.c:163-336 | the result has no backslash, no double slash, no "." but alone, and ".." only first or after a component beginning with ".." |
| PathForm.FixedIffCanonical | lib/common/path.c:163-336 | a string is left alone if and only if it is canonical |
| PathUnique.ShortestIff | lib/common/path.c:163-336 | the result is the shortest path to the place exactly when no ".." meets, as the last name reached, one that begins with two dots and is not the lone component of a relative path |
| PathUnique.SamePlaceIff | lib/common/path.c:163-336 | two paths on which that does not happen, alike in their last slash, lead to one place if and only if they have one canonical form |
| PathUnique.PlainSamePlaceIff | lib/common/path.c:163-336 | the same for all paths whose only components beginning with ".." are ".." itself |
| PathUnique.MisreadName | lib/common/path.c:258-264 | for a name x and a name y that begins with two dots, "x/y/.." leads where "x" does and is canonicalised differently |
| PathUnique.OneComponent | lib/common/path.c:173-193 | a string without slash and backslash is one component |
| PathUnique.BothSeparate | lib/common/path.c:173-193 | a slash and a backslash both end a component, whatever stands around them |
| PathUnique.DottedIff | lib/common/path.c:258-264 | the prefix test accepts exactly the names whose first two characters are dots |
| PathStep.StepUp | lib/common/path.c:232-309 | the searches, prefix tests and cursor moves for ".." on text are the removal or addition of one component |
| PathStep.StepToken | lib/common/path.c:206-322 | every branch for one token on text is the component operation |
| PathStep.StepFits | lib/common/path.c:206-322 | a token never makes the written text longer than what has been read |
| Path.Squeeze | lib/common/path.c:173-193 | the first pass turns every run of separators into one slash, in place, and terminates the string no later than before |
| Path.SquashTokens | lib/common/path.c:173-193 | the first pass keeps the tokens of the path |
| Path.WriteDot | lib/common/path.c:207-230 | the "." branches write exactly the specified text and nothing at or behind the read cursor |
| Path.WriteDotDot | lib/common/path.c:232-309 | the ".." branches, their backward search included, write exactly the specified text and nothing at or behind the read cursor |
| Path.WriteName | lib/common/path.c:310-322 | a name is moved down over what has been read, with its slash |
| Path.EndToken | lib/common/path.c:203-322 | whichever branch a token takes, the write cursor stays within what has been read and the unread part is intact |
| Path.TakeToken | lib/common/path.c:203-331 | one token in the loop keeps the invariant between text, components and the rest of the string |
| Path.Rewrite | lib/common/path.c:200-332 | the scanning loop ends with the canonical text written |
| Path.SecondPass | lib/common/path.c:195-336 | the second pass turns squeezed text into its canonical form, no longer than it was |
| Path.Canonicalize | lib/common/path.c:163-336 | the buffer holds the canonical form of its old string, terminated, no longer than it was, and no byte behind the old terminator changes |
| PathMatch.OneStep | lib/common/path.c:464-515 | "?" and ordinary characters match exactly one character and the rest |
| PathMatch.StarStep | lib/common/path.c:482-499 | "*" matches nothing or one more character |
| PathMatch.PathMatch | lib/common/path.c:458-526 | terminates, and is true exactly when the path divides into pieces that fit the pattern characters in turn |
| PathMatch.LowerIff | lib/common/path.c:503-506 | two characters have one lower case exactly when they are equal or the two cases of one of 26 letters |
| PathMatch.CaseIgnored | lib/common/path.c:458-526 | a match stays a match when the case of any letters of the path and the pattern changes |
| DateTime.ConvertUnixTimeToDate64 | lib/common/date_time.c:267-320 | writes the calendar date of the timestamp; converting back gives the timestamp if and only if it lies between 0 and the end of year 65535, over all 64-bit values and beyond |
| DateTime.SplitDays | lib/common/date_time.c:293-316 | the divisions give the calendar day of a day count for every count before the 32-bit arithmetic wraps |
| DateTime.ToUnixCounts | lib/common/date_time.c:372-406 | the date-to-timestamp formula counts the days since 1 January 1970 and the seconds of the day |
| DateTime.KnownEpoch | lib/common/date_time.c:372-406 | 1970-01-01 00:00:00 has timestamp 0 and is a Thursday |
| DateTime.KnownLeapDay | lib/common/date_time.c:372-406 | 2000-02-29 12:34:56 has timestamp 951827696 and is a Tuesday |
| DateTime.CountNext | lib/common/date_time.c:372-406 | the day after a date has the next day count, over leap years, centuries and month ends |
| DateTime.CountAscends | lib/common/date_time.c:372-406 | a later date has a larger day count |
| DateTime.CountInjective | lib/common/date_time.c:372-406 | no two dates share a day count |
| DateTime.DayAtCount | lib/common/date_time.c:293-316 | the day of a date's day count is that date |
| DateTime.DateRoundTrip | lib/common/date_time.c:267-406 | every valid date from 1970 on comes back from its timestamp, with the weekday computed and milliseconds cleared |
| DateTime.TimestampRoundTrip | lib/common/date_time.c:267-406 | a timestamp comes back from its date exactly from 0 to the end of year 65535 |
| DateTime.Weekday | lib/common/date_time.c:495-518 | Zeller's formula is the day count modulo seven, for every date of years 1 to 65535 |
| DateTime.WeekdayOfDay | lib/common/date_time.c:495-518 | the weekday written for a day count is that count modulo seven |
| DateTime.CompareOrders | lib/common/date_time.c:416-484 | the field-by-field comparison orders dates as their moments in time |
| AesField.TeEntry | lib/cyclone_crypto/cipher/aes.c:85-119 | every encryption table word is the S-box value times 2, 1, 1 and 3 in GF(2^8) |
| AesField.TdEntry | lib/cyclone_crypto/cipher/aes.c:122-156 | every decryption table word is the inverse S-box value times 14, 9, 13 and 11 |
| AesSBox.SBoxIsSubByte | lib/cyclone_crypto/cipher/aes.c:43-61 | every S-box entry is the inverse in GF(2^8) followed by the affine map, as section 5.1.1 of FIPS 197 defines it |
| AesSBox.InverseIsUnique | lib/cyclone_crypto/cipher/aes.c:43-61 | a byte has one inverse in GF(2^8) at most, so that definition names one value |
| AesField.InvSBoxInverts | lib/cyclone_crypto/cipher/aes.c:43-82 | the second S-box inverts the first on every byte |
| AesField.SBoxInverts | lib/cyclone_crypto/cipher/aes.c:43-82 | the first S-box inverts the second on every byte |
| AesSpec.MixInverts | lib/cyclone_crypto/cipher/aes.c:85-156 | InvMixColumns undoes MixColumns on every column |
| AesSpec.InvMixXor | lib/cyclone_crypto/cipher/aes.c:313-332 | InvMixColumns distributes over XOR, which lets the round keys be transformed instead of the state |
| AesSpec.CipherInverts | lib/cyclone_crypto/cipher/aes.c:346-558 | the equivalent inverse cipher with transformed reversed keys undoes the cipher of section 5.1 of FIPS 197, for any keys and any number of rounds |
| AesWords.TeGather | lib/cyclone_crypto/cipher/aes.c:373-402 | four look-ups, three rotations and the XORs are SubBytes and MixColumns of a column |
| AesWords.TdGather | lib/cyclone_crypto/cipher/aes.c:484-513 | four look-ups in the inverse table are InvSubBytes and InvMixColumns of a column |
| Aes.AesContext.Expand | lib/cyclone_crypto/cipher/aes.c:273-311 | the expansion loop writes the key schedule of section 5.2 of FIPS 197 |
| Aes.AesContext.InvertKeys | lib/cyclone_crypto/cipher/aes.c:313-332 | the decryption keys are the encryption keys, all but first and last through InvMixColumns |
| Aes.AesContext.Init | lib/cyclone_crypto/cipher/aes.c:237-336 | accepts exactly 16, 24 and 32 bytes; both schedules are then those of the standard |
| Aes.AesContext.EncryptBlock | lib/cyclone_crypto/cipher/aes.c:346-447 | the table-driven rounds compute the cipher of section 5.1 of FIPS 197 with the schedule |
| Aes.AesContext.DecryptBlock | lib/cyclone_crypto/cipher/aes.c:457-558 | the table-driven inverse rounds return the plaintext of every encrypted block |
| AesVectors.RotWordTurnsLeft | lib/cyclone_crypto/cipher/aes.c:288-297 | RotWord gives the second to fourth byte of a word and then the first |
| AesVectors.ShiftRowsTurnsLeft | lib/cyclone_crypto/cipher/aes.c:373-402 | row r of a state moves left by r places |
| AesVectors.RoundCount | lib/cyclone_crypto/cipher/aes.c:252-268 | the number of rounds is the number of key words plus six |
| AesVectors.FirstDerivedWords | lib/cyclone_crypto/cipher/aes.c:273-311 | the first derived word of Appendices A.1, A.2 and A.3 of FIPS 197, for all three key sizes |
| AesVectors.SubstitutedWord | lib/cyclone_crypto/cipher/aes.c:299-305 | word 12 of Appendix A.3, which a 256-bit key substitutes and does not rotate |
| AesVectors.AppendixA1 | lib/cyclone_crypto/cipher/aes.c:273-311 | all eleven round keys of Appendix A.1 |
| AesVectors.AppendixB | lib/cyclone_crypto/cipher/aes.c:346-447 | the cipher example of Appendix B, round by round |
| AesVectors.EncryptAppendixB | lib/cyclone_crypto/cipher/aes.c:237-447 | a context set up with the key of Appendix B encrypts its block to the published output |
| AriaSpec.AInvolution | lib/cyclone_crypto/cipher/aria.c:124-144 | the diffusion layer undoes itself on every block |
| AriaSpec.AXor | lib/cyclone_crypto/cipher/aria.c:124-144 | the diffusion layer distributes over XOR |
| AriaSpec.SL2Inverts | lib/cyclone_crypto/cipher/aria.c:78-122 | the second substitution layer undoes the first |
| AriaSpec.SL1Inverts | lib/cyclone_crypto/cipher/aria.c:78-122 | the first substitution layer undoes the second |
| AriaSpec.CipherInverts | lib/cyclone_crypto/cipher/aria.c:468-480 | the same rounds with reversed, diffused keys undo the cipher for any keys and any even number of rounds |
| Aria.Diffuse | lib/cyclone_crypto/cipher/aria.c:124-144 | the macro on four words is the diffusion layer on bytes of section 2.4.3 of RFC 5794 |
| Aria.OF | lib/cyclone_crypto/cipher/aria.c:306-316 | the odd round is key addition, SL1 and diffusion |
| Aria.EF | lib/cyclone_crypto/cipher/aria.c:325-335 | the even round is key addition, SL2 and diffusion |
| Rotation.RolWordsRotate | lib/cyclone_crypto/cipher/aria.c:62-72 | words picked and shifted in pairs make up the 128-bit string rotated bit by bit, for every amount |
| Aria.Rotates | lib/cyclone_crypto/cipher/aria.c:62-72 | the rotation macro on four words is the 128-bit rotation, for every amount |
| Aria.Intermediate | lib/cyclone_crypto/cipher/aria.c:413-427 | W0 to W3 are the values section 2.2 of RFC 5794 defines from both halves of the key and the three constants |
| Aria.RoundKey | lib/cyclone_crypto/cipher/aria.c:432-466 | each of the seventeen keys is the named W XORed with the named W rotated by the listed amount |
| Aria.AriaContext.ReverseKeys | lib/cyclone_crypto/cipher/aria.c:468-480 | the decryption keys are the encryption keys reversed, the inner ones diffused |
| Aria.AriaContext.Init | lib/cyclone_crypto/cipher/aria.c:346-484 | accepts exactly 16, 24 and 32 bytes, with 12, 14 or 16 rounds; both key arrays are then right |
| Aria.AriaContext.EncryptBlock | lib/cyclone_crypto/cipher/aria.c:494-557 | the unrolled rounds compute the byte-wise cipher for all three round counts |
| Aria.AriaContext.DecryptBlock | lib/cyclone_crypto/cipher/aria.c:567-630 | returns the plaintext of every encrypted block |
| SBoxLaws.SB2IsInversion | lib/cyclone_crypto/cipher/aria.c:168-186 | every entry of sb2 is an affine image of the inverse of its index in GF(2^8) |
| AriaVectors.FirstRoundKeys | lib/cyclone_crypto/cipher/aria.c:432-466 | ek1 to ek8 of section 2.2 of RFC 5794, written out |
| AriaVectors.LastRoundKeys | lib/cyclone_crypto/cipher/aria.c:432-466 | ek9 to ek17, written out |
| AriaVectors.ConstantOrder | lib/cyclone_crypto/cipher/aria.c:358-390 | the three constants and the one each key size starts with |
| AriaVectors.KeyHalves | lib/cyclone_crypto/cipher/aria.c:399-411 | KL is the first sixteen bytes of the key, KR the rest, filled up with zeros |
| AriaVectors.AppendixA1 | lib/cyclone_crypto/cipher/aria.c:494-557 | the example of a 128-bit key in Appendix A.1, round by round |
| AriaVectors.EncryptAppendixA1 | lib/cyclone_crypto/cipher/aria.c:346-557 | a context set up with its key encrypts its block to the published output |
| CamelliaTables.SBox2Rotates | lib/cyclone_crypto/cipher/camellia.c:216-234 | the second S-box is the first rotated by one, on every byte |
| CamelliaTables.SBox3Rotates | lib/cyclone_crypto/cipher/camellia.c:237-255 | the third S-box is the first rotated by seven |
| CamelliaTables.SBox4Rotates | lib/cyclone_crypto/cipher/camellia.c:258-276 | the fourth S-box is the first after rotating its input by one |
| CamelliaSpec.FLInverts | lib/cyclone_crypto/cipher/camellia.c:53-67 | FL and FL_INV undo each other under any key |
| CamelliaSpec.CipherInverts | lib/cyclone_crypto/cipher/camellia.c:461-602 | decryption with the same subkeys undoes encryption for any round count and any subkeys |
| Camellia.PWordsAreP | lib/cyclone_crypto/cipher/camellia.c:82-89 | the rotate-and-XOR macro on two words is the byte-wise P of the F-function, section 2.4.1 of RFC 3713 |
| Camellia.MacrosAreF | lib/cyclone_crypto/cipher/camellia.c:69-103 | the macros together are the round function F |
| Camellia.KeyWords | lib/cyclone_crypto/cipher/camellia.c:363-403 | the six-round loop leaves KA and KB of section 2.2 |
| Camellia.HalvesRotate | lib/cyclone_crypto/cipher/camellia.c:419-442 | the word shifts are the 128-bit left rotation, for every amount |
| Camellia.SubkeyIs | lib/cyclone_crypto/cipher/camellia.c:419-442 | the two words written for a table entry are the named 64-bit half of the named key rotated left by the listed shift |
| Camellia.CamelliaContext.PutSubkeys | lib/cyclone_crypto/cipher/camellia.c:405-447 | the data-driven loop writes every entry of the table and no entry spoils another |
| Camellia.CamelliaContext.Init | lib/cyclone_crypto/cipher/camellia.c:309-451 | accepts exactly 16, 24 and 32 bytes, with 18 or 24 rounds; every subkey is then the one RFC 3713 names |
| Camellia.CamelliaContext.EncryptBlock | lib/cyclone_crypto/cipher/camellia.c:461-523 | the loop with its ascending subkey cursor is the cipher over the scheduled keys |
| Camellia.CamelliaContext.DecryptBlock | lib/cyclone_crypto/cipher/camellia.c:533-602 | the loop with its descending subkey cursor returns the plaintext of every encrypted block |
| SBoxLaws.SBox1IsInversion | lib/cyclone_crypto/cipher/camellia.c:195-213 | every entry of sbox1 is an affine image of the inverse in GF(2^8) of an affine image of its index |
| CamelliaVectors.SigmasAreRoots | lib/cyclone_crypto/cipher/camellia.c:184-192 | the six constants are the hexadecimal places two to seventeen of the square roots of the first six primes |
| CamelliaVectors.RightKeyIs | lib/cyclone_crypto/cipher/camellia.c:341-361 | KR is zero, or the rest of the key, with its first half complemented behind it for 24 bytes |
| CamelliaVectors.Subkeys128From0 | lib/cyclone_crypto/cipher/camellia.c:114-142 | section 2.2 of RFC 3713 for a 128-bit key, subkeys kw1 to k6, written out without the table |
| CamelliaVectors.Subkeys128From8 | lib/cyclone_crypto/cipher/camellia.c:114-142 | the same for ke1 to k12 |
| CamelliaVectors.Subkeys128From16 | lib/cyclone_crypto/cipher/camellia.c:114-142 | the same for ke3 to k16 |
| CamelliaVectors.Subkeys128From22 | lib/cyclone_crypto/cipher/camellia.c:114-142 | the same for k17 to kw4 |
| CamelliaVectors.Subkeys256From0 | lib/cyclone_crypto/cipher/camellia.c:145-181 | section 2.2 for the longer keys, subkeys kw1 to k6, written out without the table |
| CamelliaVectors.Subkeys256From8 | lib/cyclone_crypto/cipher/camellia.c:145-181 | the same for ke1 to ke4 |
| CamelliaVectors.Subkeys256From18 | lib/cyclone_crypto/cipher/camellia.c:145-181 | the same for k13 to k18 |
| CamelliaVectors.Subkeys256From24 | lib/cyclone_crypto/cipher/camellia.c:145-181 | the same for ke5 to k22 |
| CamelliaVectors.Subkeys256From30 | lib/cyclone_crypto/cipher/camellia.c:145-181 | the same for k23 to kw4 |
| CamelliaVectors.AppendixA | lib/cyclone_crypto/cipher/camellia.c:461-523 | the example of a 192-bit key in Appendix A, round by round |
| CamelliaVectors.EncryptAppendixA | lib/cyclone_crypto/cipher/camellia.c:309-523 | a context set up with its key encrypts its block to the published output |
| CcmSpec.DecryptionUndoesEncryption | lib/cyclone_crypto/aead/ccm.c:201-332 | counter mode from the same nonce undoes itself, for every block function |
| CcmSpec.CountersDistinct | lib/cyclone_crypto/aead/ccm.c:433-447 | counter blocks with different indexes below the field's limit differ |
| CcmSpec.CountersOfMessage | lib/cyclone_crypto/aead/ccm.c:346-381 | every index an accepted message uses is below that limit |
| CcmSpec.CountersAreNotBlock0 | lib/cyclone_crypto/aead/ccm.c:346-424 | no counter block equals any first block, whatever the nonces and lengths |
| CcmSpec.Block0Injective | lib/cyclone_crypto/aead/ccm.c:346-381 | the first block determines nonce, tag length, message length and whether there is additional data |
| CcmSpec.StoredIsStandardIff | lib/cyclone_crypto/aead/ccm.c:93-117 | the length the code stores in front of the additional data is the one of Appendix A.2.2 exactly below 2^32 bytes |
| CcmStored.StoredLengthEqualIff | lib/cyclone_crypto/aead/ccm.c:93-117 | the stored length tells two lengths apart unless both are at least 0xFF00 and agree in their low 32 bits, and then it never does |
| CcmStored.StoredDetermines | lib/cyclone_crypto/aead/ccm.c:78-143 | if what the code chains for one input is a prefix of what it chains for another, nonce, tag length and payload length agree, and so do the inputs unless their data lengths are of that kind |
| CcmStored.ZerosCollide | lib/cyclone_crypto/aead/ccm.c:78-143 | for any two such lengths, zeros of these lengths under any nonce are formatted as a prefix and its extension |
| CcmStored.CollideIff | lib/cyclone_crypto/aead/ccm.c:78-143 | the lengths of additional data that admit a collision are exactly those: both at least 0xFF00, the shorter in front, equal in their low 32 bits |
| CcmStored.PrefixFreeIff | lib/cyclone_crypto/aead/ccm.c:78-143 | the formatting of the code is prefix-free (section 5.4 of NIST SP 800-38C) for additional data of less than n bytes if and only if n is at most 2^32 + 0xFF00 |
| CcmSpec.FormattingPrefixFree | lib/cyclone_crypto/aead/ccm.c:78-143 | about the three length forms of the standard, which the code follows below 2^32 bytes: a formatted input that is a prefix of another comes from the same nonce, data, payload and tag length, for every length the standard allows |
| Ccm.FormatBlock0 | lib/cyclone_crypto/aead/ccm.c:346-381 | accepts exactly the nonce, tag and message lengths of Appendix A.1 and writes B(0) |
| Ccm.FormatCounter0 | lib/cyclone_crypto/aead/ccm.c:411-424 | writes counter block 0 |
| Ccm.IncCounter | lib/cyclone_crypto/aead/ccm.c:433-447 | the carry loop counts the field up by one and keeps the rest of the block |
| Ccm.MacAad | lib/cyclone_crypto/aead/ccm.c:87-143 | the special first block and the loop over the rest are CBC-MAC of the padded data behind its stored length |
| Ccm.Encrypt | lib/cyclone_crypto/aead/ccm.c:60-182 | ciphertext and tag over the stored length, which is the tag of section 6.1 below 2^32 bytes of additional data; in place or not; nothing written on refusal |
| Ccm.Decrypt | lib/cyclone_crypto/aead/ccm.c:201-332 | the plaintext of section 6.2, accepted exactly when the tag equals the recomputed one, which is the tag of the standard below 2^32 bytes of additional data |
| Ccm.EncryptThenDecrypt | lib/cyclone_crypto/aead/ccm.c:60-332 | decryption of an encryption returns no error and the plaintext |
| ModeVectors.CcmLengths | lib/cyclone_crypto/aead/ccm.c:346-381 | which lengths of nonce, tag and payload are accepted, one by one |
| ModeVectors.CcmExample | lib/cyclone_crypto/aead/ccm.c:60-182 | with the block cipher values of AES, example 2 of NIST SP 800-38C has its ciphertext and tag |
| ChachaSpec.CryptAppend | lib/cyclone_crypto/cipher/chacha.c:193-262 | two calls in a row produce what one call on the joined data produces |
| ChachaSpec.ChunkingIrrelevantToCrypt | lib/cyclone_crypto/cipher/chacha.c:193-262 | any division of the data into calls produces the same output |
| ChachaSpec.CryptTwice | lib/cyclone_crypto/cipher/chacha.c:235-239 | from equal contexts the cipher undoes itself |
| ChachaSpec.FirstBlocks | lib/cyclone_crypto/cipher/chacha.c:210-217 | below 2^32 blocks only word 12 counts |
| ChachaSpec.CarryAtLimit | lib/cyclone_crypto/cipher/chacha.c:213-217 | at 2^32 blocks the carry changes word 13, which a 12-byte nonce owns |
| ChachaSpec.NonceKeptIff | lib/cyclone_crypto/cipher/chacha.c:210-217 | the first n blocks all use the nonce words as given if and only if n is at most 2^32 |
| ChachaSpec.BlockInputsRepeatIff | lib/cyclone_crypto/cipher/chacha.c:210-217 | from any state, with any nonce, two block inputs are equal if and only if their block numbers differ by a multiple of 2^64 |
| ChachaSpec.CounterStartsAtZero | lib/cyclone_crypto/cipher/chacha.c:138-161 | 8-byte and 12-byte nonces start the counter at zero |
| Chacha.ChachaContext.Init | lib/cyclone_crypto/cipher/chacha.c:71-182 | accepts exactly the allowed round counts and key and nonce lengths; the state is then the initial one with nothing used |
| Chacha.ChachaContext.ProcessBlock | lib/cyclone_crypto/cipher/chacha.c:270-313 | the keystream buffer holds the block function of the state |
| Chacha.ChachaContext.Cipher | lib/cyclone_crypto/cipher/chacha.c:193-262 | from any position in a block, the output is the keystream from the number of bytes used so far, XORed or plain, and the context then stands that much further |
| Chacha.ChachaContext.CipherChunks | lib/cyclone_crypto/cipher/chacha.c:193-262 | any number of calls on one context, each on its own piece, put out the encryption of the joined pieces |
| Chacha.ChachaContext.ContextDetermined | lib/cyclone_crypto/cipher/chacha.c:193-262 | two contexts that started alike and have handed out equally many bytes are equal, however the calls were split |
| ChachaVectors.Section211 | lib/cyclone_crypto/cipher/chacha.c:43-58 | the quarter round example of section 2.1.1 of RFC 8439 |
| ChachaVectors.QuarterAt | lib/cyclone_crypto/cipher/chacha.c:43-58 | a quarter round changes its four words alone, as it does by themselves |
| ChachaVectors.ChachaLengths | lib/cyclone_crypto/cipher/chacha.c:88-168 | keys of 128 or 256 bits and nonces of 64, 96 or 128 bits are accepted |
| ChachaVectors.Constants | lib/cyclone_crypto/cipher/chacha.c:96-136 | the first four words spell "expand 16-byte k" or "expand 32-byte k" |
| ChachaVectors.Section262 | lib/cyclone_crypto/cipher/chacha.c:270-313 | the one-time key of section 2.6.2 of RFC 8439, through all twenty rounds |
| ChachaPoly.MacDataInjective | lib/cyclone_crypto/aead/chacha20_poly1305.c:96-140 | the authenticated stream determines the additional data and the ciphertext |
| ChachaPoly.MacDataReads | lib/cyclone_crypto/aead/chacha20_poly1305.c:96-140 | what is authenticated begins with the additional data, goes on at the next block with the ciphertext, is zero in between, and ends in both lengths, little-endian |
| ChachaPoly.PayloadStartsAtBlockOne | lib/cyclone_crypto/aead/chacha20_poly1305.c:82-91 | payload byte i is under block 1 + i/64, never block 0 |
| ChachaPoly.NonceKeptForPayload | lib/cyclone_crypto/aead/chacha20_poly1305.c:82-91 | every block of a payload uses the nonce as given if and only if the payload has at most 64 * (2^32 - 1) bytes, the limit of section 2.8 of RFC 8439 |
| ChachaPoly.DecryptionUndoesEncryption | lib/cyclone_crypto/aead/chacha20_poly1305.c:166-259 | the payload cipher undoes itself |
| ChachaPoly.Authenticate | lib/cyclone_crypto/aead/chacha20_poly1305.c:93-143 | the sequence of updates authenticates data, padding, ciphertext, padding and both lengths in that order |
| ChachaPoly.Encrypt | lib/cyclone_crypto/aead/chacha20_poly1305.c:62-147 | ciphertext and tag of the AEAD construction over the key stream of the code, which is section 2.8 of RFC 8439 up to the payload limit of `NonceKeptForPayload`; nothing written on refusal |
| ChachaPoly.Decrypt | lib/cyclone_crypto/aead/chacha20_poly1305.c:166-259 | the plaintext, accepted exactly when the tag equals the recomputed one |
| ChachaPoly.EncryptThenDecrypt | lib/cyclone_crypto/aead/chacha20_poly1305.c:62-259 | decryption of an encryption returns no error and the plaintext, for every authenticator |
| Blowfish.BlowfishContext.UndoPair | lib/cyclone_crypto/cipher/blowfish.c:465-485 | two rounds of the counted-down loop undo two of the counted-up loop |
| Blowfish.BlowfishContext.EncryptBlock | lib/cyclone_crypto/cipher/blowfish.c:407-447 | the two-rounds-a-pass loop is sixteen Feistel rounds with the final swap |
| Blowfish.BlowfishContext.DecryptBlock | lib/cyclone_crypto/cipher/blowfish.c:457-497 | returns the plaintext of every encrypted block, for any P-array and S-boxes |
| FeistelForms.BlowfishF | lib/cyclone_crypto/cipher/blowfish.c:425-444 | the round function on the four bytes of a word |
| FeistelForms.BlowfishIsTextbook | lib/cyclone_crypto/cipher/blowfish.c:407-447 | the rounds of the code, two to a pass, are the sixteen rounds in which the halves change places, with the last exchange undone |
| CastRounds.RoundTwice | lib/cyclone_crypto/cipher/cast128.c:53-77 | each of the three round types applied twice with the same key gives the half back |
| Cast128.BackwardUndoes | lib/cyclone_crypto/cipher/cast128.c:559-595 | the reversed rounds undo any number of rounds under any keys |
| Cast128.EncryptBlock | lib/cyclone_crypto/cipher/cast128.c:513-549 | the rounds written out, with four more beyond twelve, are the rounds in order and the final swap |
| Cast128.DecryptBlock | lib/cyclone_crypto/cipher/cast128.c:559-595 | returns the plaintext of every encrypted block, for 12 and 16 rounds |
| FeistelForms.CastTypes | lib/cyclone_crypto/cipher/cast128.c:53-77 | the three round types as section 2.2 of RFC 2144 gives them |
| FeistelForms.Cast128IsTextbook | lib/cyclone_crypto/cipher/cast128.c:513-549 | the rounds of the code are the rounds of RFC 2144 with L and R changing places, each of the type listed for its number |
| Cast256.QuadsInvert | lib/cyclone_crypto/cipher/cast256.c:76-91 | Q and QBAR undo each other under any keys |
| Cast256.BackwardUndoes | lib/cyclone_crypto/cipher/cast256.c:417-452 | reversed quad-rounds undo quad-rounds |
| Cast256.EncryptBlock | lib/cyclone_crypto/cipher/cast256.c:373-407 | six forward and six reverse quad-rounds over the block |
| Cast256.DecryptBlock | lib/cyclone_crypto/cipher/cast256.c:417-452 | returns the plaintext of every encrypted block |
| FeistelForms.ForwardQuad | lib/cyclone_crypto/cipher/cast256.c:76-82 | a forward quad-round changes C, B, A and D in turn, as RFC 2612 has it |
| FeistelForms.ReverseQuad | lib/cyclone_crypto/cipher/cast256.c:84-91 | a reverse quad-round changes D, A, B and C in turn |
| FeistelForms.SixAndSix | lib/cyclone_crypto/cipher/cast256.c:383-400 | the first six quad-rounds are forward ones, the others reverse ones |

## Left out

- Hardware: LED, HAL start-up, SysTick, flash lock and unlock, and the jump with its vector check. A flash operation is a step whose outcome is an input.
- The automatic fallback after failed boots that the repository's README promises: no code in `src/main.c` implements it.
- What the application does between boots, and the mailbox fields other than signature, flags and boot counter.
- `crc32_cyclone` in the packer and `crc32Calc` in the bootloader are the same loop, so one model stands for both. The packer's file handling, argument parsing and clock are parameters.
- `update.c`, `verify.c`, `update_fallback.c`, `siv.c`: they rest on modules whose source is not part of this model.
- Pointer checks, traces, weak symbols, OIDs and the functions that clear a context.
- Wrap-around of `size_t`, as in the bit length of an IV: lengths are unbounded, and the 64-bit length fields hold them modulo 2^64.
- The 32-bit date conversions, which differ from the 64-bit ones in type only, and the formatting of dates.
- The case mapping in `pathMatch` is that of the C locale, on ASCII letters.
- The block cipher inside GCM and CCM is any function on blocks, and Poly1305 is any function of key and byte stream.
- ARIA and Camellia keep their four-word blocks as values that are reassigned, not as arrays; aliasing of those scratch words is not modelled. ARIA encryption and decryption share one body, as their sources differ in the key array only.
- ARIA's `sb1` and `sb3` are byte for byte the AES S-box and its inverse, and reuse those tables.
- The input and output blocks of the ciphers are values, so a call with the same buffer for both is not distinguished.
- Key schedules of Blowfish, CAST-128 and CAST-256 and the contents of their S-boxes: the inversion results hold for all of them.
- The quad-rounds of CAST-256 are written out one by one in the source and are a loop here.
- Timing, side channels and secrecy.
