# Verification of libtools, LobbyMsg, MessageQueue, ServerSessionManager and IoLoopPool

A Dafny 4.11 model of the code that carries data through the game server: the AES core and its
ECB layer, the two Base64 codecs, MD5, one protobuf message, the send queue, the session table
and the pool of event loops. `dafny verify dfyconfig.toml` checks it.

| file | contents |
|---|---|
| `Words.dfy`, `GaloisField.dfy` | bytes, 32-bit words, arithmetic in GF(2^8) |
| `AesTables.dfy` | the nine lookup tables as literals, and the equations of the comment above them |
| `Fips197.dfy`, `CipherInverse.dfy` | FIPS 197 on columns: cipher, inverse cipher, equivalent inverse cipher, key expansion; why they undo each other |
| `AesRounds.dfy`, `AesCore.dfy` | the column expressions of the source; the two schedules and the two block operations in place |
| `FipsExamples.dfy`, `Rfc1321Examples.dfy` | the cipher and the digest computed out on examples of FIPS 197 and RFC 1321 |
| `Rfc1321.dfy`, `Md5.dfy` | MD5 as RFC 1321 states it; the streaming context and the digest functions |
| `Rfc4648.dfy`, `Base64.dfy`, `Base64ChSet.dfy` | Base 64 as RFC 4648 states it; the unit-based codec; the codec with two alphabets |
| `AesBt.dfy` | ECB on buffers, keys from seeds, encrypted strings as Base64 text |
| `WireFormat.dfy`, `LobbyMsg.dfy` | the Protocol Buffers encoding; `UserCommNotifyRequest` |
| `MessageQueue.dfy`, `ServerSessionManager.dfy`, `IoLoopPool.dfy` | three state machines and their whole runs |

Each piece of imperative code is a method over the same arrays or object fields, proved against a
function that states what it computes; what the source promises is then proved about that
function. The files named after a standard are the independent definitions. They are pinned in turn:
byte by byte or digit by digit for all inputs (the lemmas ending in `At`, `Number`, `InOrder`), and by
the examples of the standards, which are proved as literals.

Main results:

- AES: for every key of 128, 192 or 256 bits and every block, `AES_decrypt` under the schedule of
  `AES_set_decrypt_key` returns the block that was given to `AES_encrypt` under the schedule of
  `AES_set_encrypt_key`. The table-driven rounds are the rounds of FIPS 197, the three
  key-expansion loops fill exactly the words of its recurrence, and decryption is its
  equivalent inverse cipher.
- ECB and strings: buffer decryption returns the data and its zero padding, for every length;
  string decryption returns the string up to its first NUL, for every string and every seed.
- MD5: a context depends on the concatenation of the absorbed chunks alone, and the digest is the
  one of RFC 1321, padding and length field included.
- Base64, unit-based: the encoder writes the text of RFC 4648, decoding and encoding are inverse
  to each other on all data and on all canonical texts, and nothing is written outside the buffers.
- `UserCommNotifyRequest`: reading two serialised messages one after the other merges them,
  whenever the stream can deliver both.
- Queue, sessions, loops: see the last rows of the table.

Properties that the code does not have in full are stated with their exact condition, and with
inputs on which they fail:

- The encoder with two alphabets reads bytes through a signed `char`, so a byte of 0x80 or more
  overwrites the bytes before it in its group. `EncodersAgree` says that it agrees with RFC 4648
  if and only if `IsFaithful` holds: every byte of 0x80 or more follows only 0xff bytes in its
  group. `EncodersDisagree` is a two-byte input on which it does not.
- The secret alphabet uses `#` both as a digit (17) and as its end character, and the decoder
  casts the size of a text to `int`. `Base64ChSet.RoundTrip` says, for data of any `int` length,
  that decoding inverts encoding if and only if the data is not empty, its text has at most
  INT_MAX characters, the data is faithful and, under the secret alphabet, no digit in a third or
  fourth place of a group is 17. `SecretEndDigitTruncates` is an input that comes back shorter,
  `LongTextRefused` one whose text of 2^31 characters is refused.
- The buffer of that decoder is one byte short for some texts. `OverrunsExactly` says for which:
  those of 3 modulo 4 characters, all of them data. `OverrunBySevenCharacters` is one of
  the shortest.
- A protobuf stream delivers at most INT_MAX bytes. `LobbyMsg.RoundTrip` says that a message
  survives serialisation if and only if its serialised size, which `ByteSizeLong` gives, is at
  most INT_MAX, and `ParseOfConcatenation` says the same of two messages and the sum of their
  sizes. `Reparse` bounds what rewriting adds to a message that was read; `ReparseFails` is an
  input of INT_MAX bytes that cannot be read again once rewritten. `RestUnread` is the case in
  which the source returns true although a part of the input was not delivered: the outcome
  `LimitReached`, which is never taken for the end of the input here.

Conventions. A byte is a `bv8` in the codecs and an `int` below 256 in the protobuf encoding. A
NULL argument is a nullable array or object. Words are read and written in memory as a
little-endian machine does, where the MD5 source casts its byte buffer to `uint32_t`. `char` is
signed and `unsigned long` has 64 bits. Loop bodies that the source writes inline are methods of
their own where that keeps a proof small. `hide` statements keep definitions out of proofs that
do not need them.

Where the code and its comments or intentions differ, the model follows the code: the session id
is `current + 1 % max`, in which the modulo binds first, so that ids are never reduced;
`MAX_SIZE` is compared with the size of a full queue, so that a queue grows to 131072 messages;
the inner loop for the second character in the chSet decoder tests the first code and never
repeats.

## Model

| member | source | states |
|---|---|---|
| GaloisField.CoefficientsAreProducts | common/libtools/AesCore.cpp:43-54 | the coefficients 02, 03, 09, 0b, 0d, 0e of the table comments, as the model computes them, are products in GF(2^8) |
| AesTables.Te0Equation | common/libtools/AesCore.cpp:56-121 | for all 256 bytes, Te0[x] is S[x].[02, 01, 01, 03] in GF(2^8), as the comment at lines 43-54 claims |
| AesTables.Te1Equation | common/libtools/AesCore.cpp:122-187 | Te1[x] is S[x].[03, 02, 01, 01] |
| AesTables.Te2Equation | common/libtools/AesCore.cpp:188-253 | Te2[x] is S[x].[01, 03, 02, 01] |
| AesTables.Te3Equation | common/libtools/AesCore.cpp:254-319 | Te3[x] is S[x].[01, 01, 03, 02] |
| AesTables.Td0Equation | common/libtools/AesCore.cpp:321-386 | Td0[x] is Si[x].[0e, 09, 0d, 0b] |
| AesTables.Td1Equation | common/libtools/AesCore.cpp:387-452 | Td1[x] is Si[x].[0b, 0e, 09, 0d] |
| AesTables.Td2Equation | common/libtools/AesCore.cpp:453-518 | Td2[x] is Si[x].[0d, 0b, 0e, 09] |
| AesTables.Td3Equation | common/libtools/AesCore.cpp:519-584 | Td3[x] is Si[x].[09, 0d, 0b, 0e] |
| AesTables.SubByteIsAffineInverse | common/libtools/AesCore.cpp:122-187 | the S-box that the tables contain is the affine map of the multiplicative inverse (section 5.1.1 of FIPS 197) |
| AesTables.InvSubByteSubByte | common/libtools/AesCore.cpp:585-618 | Td4 undoes the S-box, for all bytes |
| Fips197.RoundConstants | common/libtools/AesCore.cpp:619-623 | the ten round constants as literals |
| AesRounds.RconIsRoundConstant | common/libtools/AesCore.cpp:619-623 | the ten round constants are the powers of x in GF(2^8) |
| AesRounds.RotatedSubstitutionIsSubWord | common/libtools/AesCore.cpp:657-660 | the four masked lookups of key expansion are SubWord of RotWord |
| AesRounds.SubstitutionIsSubWord | common/libtools/AesCore.cpp:712-715 | the lookups in mid-group of a 256-bit key are SubWord |
| Fips197.RotWordBytes | common/libtools/AesCore.cpp:657-660 | RotWord moves every byte one place up and the first one to the end |
| AesRounds.EncryptColumnIsRound | common/libtools/AesCore.cpp:878-901 | four T-table lookups and a key word are SubBytes, ShiftRows, MixColumns and AddRoundKey on one column |
| AesRounds.LastEncryptColumnIsRound | common/libtools/AesCore.cpp:938-943 | the masked lookups of the last round are the same without MixColumns |
| Fips197.SubBytesAt | common/libtools/AesCore.cpp:878-901 | the byte in every row and column is substituted where it is |
| Fips197.ShiftRowsAt | common/libtools/AesCore.cpp:878-901 | row r moves r columns to the left |
| Fips197.MixColumnAt | common/libtools/AesCore.cpp:878-901 | each byte of a mixed column is the sum of products in GF(2^8) of section 5.1.3 of FIPS 197 |
| AesRounds.DecryptColumnIsRound | common/libtools/AesCore.cpp:1069-1092 | a decryption column is InvSubBytes, InvShiftRows, InvMixColumns and AddRoundKey |
| AesRounds.LastDecryptColumnIsRound | common/libtools/AesCore.cpp:1129-1134 | the shifted Td4 lookups are the last inverse round |
| AesRounds.InvMixKeyWordIsInvMixColumn | common/libtools/AesCore.cpp:753-772 | Td tables applied to S-box bytes are InvMixColumns of a key word |
| Fips197.InvMixColumnDistributes | common/libtools/AesCore.cpp:750-773 | InvMixColumns is linear over xor, which is why transformed round keys can be added after it |
| Fips197.InvMixColumnMixColumn | common/libtools/AesCore.cpp:44-52 | the Td coefficients invert the Te coefficients, on every column |
| CipherInverse.InvLayersCommute | common/libtools/AesCore.cpp:1063-1123 | InvSubBytes and InvShiftRows commute, so decryption may look up before it shifts |
| CipherInverse.InvCipherCipher | common/libtools/AesCore.cpp:781-1157 | the inverse cipher returns the block that the cipher was given, under any schedule and any number of rounds |
| CipherInverse.EqInvCipherIsInvCipher | common/libtools/AesCore.cpp:743-773 | on the reversed and transformed schedule the equivalent inverse cipher (section 5.3.5 of FIPS 197) computes the inverse cipher |
| CipherInverse.DecryptionUndoesEncryption | common/libtools/AesCore.cpp:729-1157 | both together: decryption under the derived schedule undoes encryption |
| AesCore.LoadBlockAt | common/libtools/AesCore.cpp:797-800 | byte 4c + r of a block in memory is the byte in row r and column c of the state |
| AesCore.BlockBytesAt | common/libtools/AesCore.cpp:938-965 | the state is written back in the same order |
| AesCore.ScheduleKeyBytes | common/libtools/AesCore.cpp:649-694 | word i of a schedule is bytes 4i to 4i + 3 of the key, for all i < nk |
| Fips197.LaterWords | common/libtools/AesCore.cpp:653-722 | every later word adds a step to the word nk places before it, with rotation, substitution and constant at each nk-th word and a substitution in mid-group of a 256-bit key |
| AesCore.Expand128 | common/libtools/AesCore.cpp:653-670 | the loop for 128-bit keys writes words 4..43 of the KeyExpansion recurrence and no other word |
| AesCore.Expand192 | common/libtools/AesCore.cpp:673-692 | the loop for 192-bit keys, whose last pass is cut short, writes words 6..51 and no other |
| AesCore.Expand256 | common/libtools/AesCore.cpp:695-722 | the loop for 256-bit keys writes words 8..59 |
| AesCore.SetEncryptKey | common/libtools/AesCore.cpp:628-724 | -1 and -2 before anything is written; otherwise Nr and exactly the first 4(Nr+1) words of rd_key are set, to KeyExpansion of section 5.2 of FIPS 197, whatever the key structure held before |
| AesCore.SwapRoundKeys | common/libtools/AesCore.cpp:745-748 | four word swaps exchange two round keys and leave the others alone |
| AesCore.ReverseRoundKeys | common/libtools/AesCore.cpp:744-749 | round key r becomes round key Nr - r, in place |
| AesCore.InvMixRoundKey | common/libtools/AesCore.cpp:751-773 | one pass transforms its own round key and no other |
| AesCore.SetDecryptKey | common/libtools/AesCore.cpp:729-774 | the same refusals; otherwise the first 4(Nr+1) words of rd_key are the schedule of the equivalent inverse cipher, the others keep their values |
| AesCore.EncryptRounds | common/libtools/AesCore.cpp:872-933 | the s/t loop with its mid-loop break performs exactly Nr - 1 full rounds and leaves the pointer at the last round key |
| AesCore.LastEncryptRound | common/libtools/AesCore.cpp:934-965 | the last round is written to the 16 output bytes |
| AesCore.Encrypt | common/libtools/AesCore.cpp:781-966 | the output block is Cipher of the input block (section 5.1 of FIPS 197), other output bytes keep their values, input and output may be the same or overlap |
| AesCore.DecryptRounds | common/libtools/AesCore.cpp:1063-1124 | the decryption loop performs exactly Nr - 1 equivalent inverse rounds |
| AesCore.LastDecryptRound | common/libtools/AesCore.cpp:1125-1156 | the last inverse round is written to the 16 output bytes |
| AesCore.Decrypt | common/libtools/AesCore.cpp:972-1157 | the output block is the equivalent inverse cipher of the input block |
| AesCore.DecryptBlockEncryptBlock | common/libtools/AesCore.cpp:628-1157 | for all three key sizes and every block, decrypting the encrypted bytes returns them |
| FipsExamples.Encrypt128 | common/libtools/AesCore.cpp:628-966 | the vector of section C.1 of FIPS 197: key 00..0f, block 00112233..ff, ciphertext 69c4e0d8..5a |
| FipsExamples.Encrypt256 | common/libtools/AesCore.cpp:628-966 | the vector of section C.3: key 00..1f, ciphertext 8ea2b7ca..89 |
| Md5.F1IsF | common/libtools/MD5.cpp:56-57 | the rewritten F1 is F of RFC 1321 |
| Md5.F2IsG | common/libtools/MD5.cpp:58 | F1 with rotated arguments is G |
| Rfc1321.RotateLeftIsRotation | common/libtools/MD5.cpp:63-64 | the shifts of a step are a rotation to the left, for each of the amounts used |
| Rfc1321.LittleEndianWordValue | common/libtools/MD5.cpp:202 | the value of a word of the block is b0 + 2^8 b1 + 2^16 b2 + 2^24 b3 |
| Rfc1321.RegisterBytesOfWord | common/libtools/MD5.cpp:263 | a register is written as the bytes that such a word is read from |
| Rfc1321.AddWordIsSum | common/libtools/MD5.cpp:166-169 | registers are added modulo 2^32 |
| Md5.Md5Step | common/libtools/MD5.cpp:62-64 | one MD5STEP on rotated registers is the indexed step of section 3.4 of RFC 1321 |
| Md5.Round1 | common/libtools/MD5.cpp:98-113 | the first sixteen unrolled steps are steps 0..15 |
| Md5.Round2 | common/libtools/MD5.cpp:115-130 | steps 16..31 |
| Md5.Round3 | common/libtools/MD5.cpp:132-147 | steps 32..47 |
| Md5.Round4 | common/libtools/MD5.cpp:149-164 | steps 48..63 |
| Md5.Md5Context.Init | common/libtools/MD5.cpp:70-79 | a context that has absorbed nothing |
| Md5.Md5Context.Transform | common/libtools/MD5.cpp:86-170 | the registers become the compression of the block, all 64 steps and the final addition |
| Md5.CountsAfter | common/libtools/MD5.cpp:183-186 | the two counter words with the carry branch are 8 times the absorbed length modulo 2^64, after every update |
| Md5.BufferedCount | common/libtools/MD5.cpp:188 | bits 3 to 8 of the low word are the number of buffered bytes |
| Md5.AbsorbFill | common/libtools/MD5.cpp:192-205 | completing the buffered block compresses the tail and the chunk once |
| Md5.AbsorbPartial | common/libtools/MD5.cpp:196-199 | a short chunk changes the tail and not the registers |
| Md5.Md5Context.Update | common/libtools/MD5.cpp:176-219 | registers, counter and tail are those of the old message followed by the chunk, for every chunk below 2^32 bytes |
| Md5.ContextsAgree | common/libtools/MD5.cpp:172-219 | contexts that absorbed the same bytes in any chunks have the same registers, counters and buffered bytes |
| Md5.PadOneBlock | common/libtools/MD5.cpp:251-254 | with at most 55 buffered bytes the padded message ends after one more block |
| Md5.PadTwoBlocks | common/libtools/MD5.cpp:243-250 | otherwise after two |
| Md5.LittleEndianWords | common/libtools/MD5.cpp:257-259 | the two stored counter words are the eight length bytes of the padding |
| Rfc1321.PadLayout | common/libtools/MD5.cpp:231-259 | the padded message: the message, 0x80, the fewest zeros, the length in bits as eight bytes |
| Md5.Md5Context.Final | common/libtools/MD5.cpp:225-263 | the digest is that of RFC 1321: the fold over the padded message |
| Md5.Digest16 | common/libtools/MD5.cpp:270-281 | MD5_16 gives the digest of the bytes, their count truncated to 32 bits |
| Rfc1321Examples.DigestOfAbc | common/libtools/MD5.cpp:70-263 | the digest of "abc" is 900150983cd24fb0d6963f7d28e17f72, step by step |
| Md5.HexAt | common/libtools/MD5.cpp:292-295 | the digits of byte i are those of "0123456789abcdef" for its high and its low four bits, in this order |
| Md5.Bin2Hex | common/libtools/MD5.cpp:292-295 | `bin2hex` (BaseTool.cpp:23-31) writes two lower-case hexadecimal digits for each byte, in order |
| Md5.Digest32 | common/libtools/MD5.cpp:283-302 | MD5_32 gives the 32 hexadecimal digits of the digest |
| Rfc4648.DecodeEncode | common/libtools/Base64.cpp:201-348 | decoding inverts encoding on all byte strings, and every encoded text is canonical |
| Rfc4648.EncodeDecode | common/libtools/Base64.cpp:240-348 | encoding inverts decoding on all canonical texts |
| Rfc4648.DecodeInjective | common/libtools/Base64.cpp:319-348 | two canonical texts that decode alike are the same text |
| Rfc4648.DigitsInOrder | common/libtools/Base64.cpp:197-198 | the 64 digits as literal text |
| Rfc4648.GroupNumber | common/libtools/Base64.cpp:204-207 | the sextets are the digits in base 64 of the number that the three bytes are in base 256 |
| Rfc4648.UngroupNumber | common/libtools/Base64.cpp:258-260 | and back |
| Rfc4648.WellFormedExactly | common/libtools/Base64.cpp:247-281 | the texts whose decoding is promised: whole units of digits, with one or two pads at the very end |
| Rfc4648.TestVectors | common/libtools/Base64.cpp:201-236 | the seven test vectors of section 10 of RFC 4648 |
| Base64.TableIsDigit | common/libtools/Base64.cpp:197-198 | the table is Table 1 of RFC 4648 |
| Base64.UnitCode | common/libtools/Base64.cpp:201-208 | three bytes become the four characters of their 24-bit group, and nothing else changes |
| Base64.FillCode | common/libtools/Base64.cpp:211-236 | one or two bytes become a padded unit |
| Base64.EncodeBuffer | common/libtools/Base64.cpp:294-317 | the first 4 ceil(n/3) bytes of the destination are the text of section 4 of RFC 4648, the others keep their values |
| Base64.EncodeAppend | common/libtools/Base64.cpp:303-316 | behind whole units a text grows by the unit of the next bytes |
| Base64.CharPosition | common/libtools/Base64.cpp:240-244 | the search in the table finds the sextet of every character of the alphabet |
| Base64.UnitDecode | common/libtools/Base64.cpp:247-281 | a unit gives three, two or one bytes as its pads say; other bytes keep their values |
| Base64.DecodedLength | common/libtools/Base64.cpp:326-347 | three bytes for each unit minus the pads counted at the end is the length of the decoded data |
| Base64.DecodeBuffer | common/libtools/Base64.cpp:319-348 | a well-formed text is decoded in front of the destination, nothing is written behind 3 (m/4) bytes, and a text of less than four characters changes nothing |
| Base64.EncodeString | common/libtools/Base64.cpp:283-292 | the string built from the terminated buffer is the whole text |
| Base64.DecodeString | common/libtools/Base64.cpp:350-362 | null and 0 on the empty text; otherwise a buffer of 3 (m/4) bytes with the decoded data and its length |
| Base64ChSet.CharFacts | common/libtools/Base64.cpp:5-32 | both decoding tables invert both alphabets, and only the secret alphabet contains its own end character, as digit 17 |
| Base64ChSet.NormalInOrder | common/libtools/Base64.cpp:5 | the normal alphabet as literal text |
| Base64ChSet.SecretInOrder | common/libtools/Base64.cpp:17 | the secret alphabet as literal text |
| Base64ChSet.ThreeChars | common/libtools/Base64.cpp:61-63 | after three sign-extended chars the low 24 bits hold the bytes as a later negative char overwrote them |
| Base64ChSet.SmearAt | common/libtools/Base64.cpp:59-77 | byte k of the data is overwritten with 0xff exactly when a byte behind it in its group has its sign bit set |
| Base64ChSet.SecretTextTranslates | common/libtools/Base64.cpp:37-93 | the text in the secret alphabet is the normal one character for character, with # for = |
| Base64ChSet.EncodeText | common/libtools/Base64.cpp:37-93 | the text of the overwritten data in the chosen alphabet, for every length including negative ones |
| Base64ChSet.SmearKeepsExactlyFaithful | common/libtools/Base64.cpp:59-77 | the data is left intact if and only if it is faithful |
| Base64ChSet.SevenBitIsFaithful | common/libtools/Base64.cpp:59-77 | all data below 0x80 is faithful |
| Base64ChSet.EncodersAgree | common/libtools/Base64.cpp:37-93 | under the normal alphabet the text is that of RFC 4648, and so of the unit-based encoder, if and only if the data is faithful |
| Base64ChSet.EncodersDisagree | common/libtools/Base64.cpp:73-77 | a two-byte input on which the two encoders differ |
| Base64ChSet.DecodeText | common/libtools/Base64.cpp:95-187 | on every text that keeps the source inside its tables and its buffer: refused with nothing changed below four characters as an int, the buffer freed on a failure, the data up to an end character, or the exception of string::at, with characters outside the alphabet passed over |
| Base64ChSet.LastExactly | common/libtools/Base64.cpp:127-170 | a scan stops at the first character of the alphabet, or end character where that counts, or at the end |
| Base64ChSet.SkippedInFront | common/libtools/Base64.cpp:127-130 | a character outside the alphabet in front of a unit changes nothing |
| Base64ChSet.DecodeExamples | common/libtools/Base64.cpp:95-187 | texts with other characters in the first to fourth place, and texts that end too early |
| Base64ChSet.ReadText | common/libtools/Base64.cpp:124-177 | what is decoded from a text of the encoder is a beginning of its data, and all of it if and only if no end character was written as a digit |
| Base64ChSet.OverrunsExactly | common/libtools/Base64.cpp:114-177 | the decoder stores more bytes than it allocated, by one, if and only if the text has 3 modulo 4 characters and all are data |
| Base64ChSet.OverrunBySevenCharacters | common/libtools/Base64.cpp:114-177 | seven characters of data store five bytes in a buffer of four |
| Base64ChSet.SevenBitStaysInBounds | common/libtools/Base64.cpp:114-177 | seven-bit texts that do not end after the third character of a unit stay in bounds |
| Base64ChSet.TextStaysInBounds | common/libtools/Base64.cpp:37-187 | no text of the encoder does that, or leaves the tables |
| Base64ChSet.RoundTrip | common/libtools/Base64.cpp:37-187 | decoding inverts encoding if and only if the data is not empty, its text has at most INT_MAX characters, and the data is faithful and, in the secret alphabet, has no digit 17 in a third or fourth place |
| Base64ChSet.SecretEndDigitTruncates | common/libtools/Base64.cpp:151-153 | faithful data that the secret alphabet does not bring back |
| Base64ChSet.LongTextRefused | common/libtools/Base64.cpp:114-119 | 1610612734 bytes make a text of 2^31 characters, whose int size is negative, and the decoder refuses it |
| Base64ChSet.LongestText | common/libtools/Base64.cpp:114-119 | one byte less of zeros comes back |
| Base64ChSet.EncodeThenDecode | common/libtools/Base64.cpp:37-187 | the two functions one after the other: success if and only if the data is not empty and its text has an int size, then with the same bytes under exactly the condition on the data; -1 otherwise |
| AesBt.EncryptEcb128 | common/libtools/AesBt.cpp:21-42 | the output is the ECB text of the input, the last block filled with zeros, also in place; bytes behind it keep their values |
| AesBt.DecryptEcb128 | common/libtools/AesBt.cpp:44-57 | whole blocks are decrypted, a shorter rest is left out |
| AesBt.EcbBlock | common/libtools/AesBt.cpp:28-41 | cipher block i is the encryption of plain block i alone |
| AesBt.PlainBlockAt | common/libtools/AesBt.cpp:28-41 | byte k of plain block i is byte 16i + k of the data, or zero behind its end |
| AesBt.EcbDecryptBlock | common/libtools/AesBt.cpp:51-56 | plain block i is the decryption of cipher block i alone |
| AesBt.EcbDecryptEcbEncrypt | common/libtools/AesBt.cpp:21-57 | for every length, decryption returns the data followed by zeros up to a multiple of 16 |
| AesBt.GetKey | common/libtools/AesBt.cpp:15-19 | the key is the first 16 hexadecimal digits of the MD5 of the seed |
| AesBt.KeyTextAt | common/libtools/AesBt.cpp:15-19 | characters 2i and 2i + 1 of the key are the lower-case digits of byte i of the digest, for i < 8 |
| AesBt.EncryptString | common/libtools/AesBt.cpp:85-94 | the returned text is the Base64 text of the ECB text |
| AesBt.EncryptTextBlock | common/libtools/AesBt.cpp:85-94 | the text decodes to one cipher block for each plain block of the string and to no more |
| AesBt.DecryptString | common/libtools/AesBt.cpp:96-109 | for a well-formed text of whole blocks, the decrypted bytes up to the first NUL |
| AesBt.DecryptTextBlocks | common/libtools/AesBt.cpp:96-109 | the decrypted string is what precedes the first NUL in the decrypted blocks |
| AesBt.StringRoundTrip | common/libtools/AesBt.cpp:85-109 | for every string and seed, decryption of the encryption is the string up to its first NUL |
| AesBt.StringRoundTripWithoutNul | common/libtools/AesBt.cpp:85-109 | a string without NUL comes back unchanged |
| AesBt.EncryptThenDecrypt | common/libtools/AesBt.cpp:85-109 | the same for the two functions called one after the other |
| WireFormat.ReadVarintOfVarint | message/cpp/LobbyMsg.pb.cc:3409-3411 | reading a varint gives back the number and its size, whatever follows it |
| WireFormat.FirstByteRead | message/cpp/LobbyMsg.pb.cc:3402 | how a varint is read byte by byte, also one that is longer than need be |
| WireFormat.ReadInt32AsLong | message/cpp/LobbyMsg.pb.cc:3500-3509 | a negative int32 is written as the ten bytes of v + 2^64 |
| WireFormat.TruncatedIsCongruent | message/cpp/LobbyMsg.pb.cc:3408-3412 | a number read into an int32 is changed by a multiple of 2^32 only |
| WireFormat.Int32Sizes | message/cpp/LobbyMsg.pb.cc:3550-3559 | the size computed for an int32 is the length of its varint, ten bytes for negative values |
| WireFormat.ReadVarint32 | message/cpp/LobbyMsg.pb.cc:3402 | the low 32 bits of the varint at a position, and the position behind it; failure exactly when it is cut off or longer than ten bytes |
| WireFormat.WriteVarint | message/cpp/LobbyMsg.pb.cc:3500-3522 | the bytes of the varint at the target, nothing else changed |
| LobbyMsg.UserCommNotifyRequest.constructor | message/cpp/LobbyMsg.pb.cc:3256-3283 | a new message has no field |
| LobbyMsg.UserCommNotifyRequest.FieldsOfBits | message/cpp/LobbyMsg.pb.h:2589-2635 | bits 1, 2 and 4 of has-bits say which fields are set; the others have their defaults |
| LobbyMsg.UserCommNotifyRequest.Clear | message/cpp/LobbyMsg.pb.cc:3305-3322 | no field is left, although only the fields with has-bits are reset |
| LobbyMsg.UserCommNotifyRequest.MergeFrom | message/cpp/LobbyMsg.pb.cc:3583-3604 | fields of the other message replace, the others stay; has-bits are united |
| LobbyMsg.UserCommNotifyRequest.CopyFrom | message/cpp/LobbyMsg.pb.cc:3613-3618 | the fields become those of the other message, also when it is the same object |
| LobbyMsg.UserCommNotifyRequest.SetNotifyData | message/cpp/LobbyMsg.pb.h:2636-2640 | sets this field and its has-bit and no other |
| LobbyMsg.UserCommNotifyRequest.MergePartialFromCodedStream | message/cpp/LobbyMsg.pb.cc:3395-3460 | reads what the stream delivers of an input, at most INT_MAX bytes, into the message; ends at the end, at that limit or at a zero tag, or fails, as the encoding says |
| LobbyMsg.UserCommNotifyRequest.SerializeToArray | message/cpp/LobbyMsg.pb.cc:3493-3524 | the encoding of the fields that are set is written at the target and nothing else changes |
| LobbyMsg.SerializeLayout | message/cpp/LobbyMsg.pb.cc:3493-3517 | tag bytes 8, 16 and 26 in this order, each with its value, for all messages |
| LobbyMsg.SerializeExamples | message/cpp/LobbyMsg.pb.cc:3493-3517 | three messages and their bytes |
| LobbyMsg.UserCommNotifyRequest.ByteSizeLong | message/cpp/LobbyMsg.pb.cc:3526-3566 | the number of bytes that serialisation writes, for all has-bits, values and lengths |
| LobbyMsg.ReadSerialized | message/cpp/LobbyMsg.pb.cc:3395-3524 | reading what was written for a message merges it into the present one and uses up its size of the stream's limit, whatever follows and whatever the limit |
| LobbyMsg.ParseOfConcatenation | message/cpp/LobbyMsg.pb.cc:3395-3604 | reading serialize(a) ++ serialize(b) to its end into a cleared message gives a merged with b, if and only if both sizes together are at most INT_MAX |
| LobbyMsg.RestUnread | 3rd/protobuf/google/protobuf/io/coded_stream.cc:466-483 | behind a message of INT_MAX bytes the rest of the input is not read, and the source reports the end |
| LobbyMsg.RoundTrip | message/cpp/LobbyMsg.pb.cc:3395-3566 | a serialised message is read back unchanged if and only if its size is at most INT_MAX; beyond, no call that returns true gives it back |
| LobbyMsg.LongestData | message/cpp/LobbyMsg.pb.cc:3395-3566 | 2147483641 bytes of data alone can be read back, one more cannot |
| LobbyMsg.ReadExamples | message/cpp/LobbyMsg.pb.cc:3395-3460 | a repeated field, a long tag, a number of more than 32 bits, zero and unreadable tags, cut fields, other fields |
| LobbyMsg.Reparse | message/cpp/LobbyMsg.pb.cc:3395-3524 | what was read to the end of an input is rewritten in at most ten bytes more, and read again unchanged if and only if that is at most INT_MAX bytes |
| LobbyMsg.ReparseFails | message/cpp/LobbyMsg.pb.cc:3395-3524 | an input of INT_MAX bytes, with -1 in a five-byte varint, whose message is too long once rewritten |
| MessageQueue.CapacityGrows | common/libmessage/MessageQueue.cpp:20-28 | a capacity 256 * 2^k above MAX_SIZE is 131072, and below it doubling stays in the family with k at most 9 |
| MessageQueue.SoundMeans | common/libmessage/MessageQueue.cpp:18-31 | the capacity is one of the ten from 256 to 131072, and never below the number of messages |
| MessageQueue.MessageQueue.Push | common/libmessage/MessageQueue.cpp:18-31 | fails if and only if 131072 messages are held, and otherwise appends without dropping an older one; a full ring doubles |
| MessageQueue.MessageQueue.Pop | common/libmessage/MessageQueue.cpp:7-16 | the oldest message, or null on the empty queue |
| MessageQueue.MessageQueue.Front | common/libmessage/MessageQueue.cpp:33-40 | the oldest message, which stays |
| MessageQueue.RunRefinesFifo | common/libmessage/MessageQueue.cpp:5-40 | in every run of calls the ring answers as an unbounded first-in first-out queue with that one limit, and its capacity stays 256 * 2^k |
| MessageQueue.NothingLost | common/libmessage/MessageQueue.cpp:5-40 | in every run the accepted messages are those taken, in order, and those still held |
| ServerSessionManager.RunKeepsInv | common/libserver/ServerSessionManager.cpp:16-81 | over every run: the table within its limit, ids counting admissions, every entry of the session admitted under its id |
| ServerSessionManager.NeverOverLimit | common/libserver/ServerSessionManager.cpp:16-27 | the table never exceeds its limit |
| ServerSessionManager.AdmissionGetsNextId | common/libserver/ServerSessionManager.cpp:23-25 | the n-th admission gets id n and a new entry; an int holds it exactly for the first 2^31 - 1 |
| ServerSessionManager.EntriesAreAdmissions | common/libserver/ServerSessionManager.cpp:23-25 | every entry is of the session that was admitted under its id |
| ServerSessionManager.IdsAfter | common/libserver/ServerSessionManager.cpp:16-81 | closing leaves -1 with its session, admission the next id, and no step changes another session's id |
| ServerSessionManager.IdsIncrease | common/libserver/ServerSessionManager.cpp:23 | of two admissions in a run the later one gets the larger id, as long as ids fit an int |
| ServerSessionManager.EntriesStay | common/libserver/ServerSessionManager.cpp:29-81 | an entry goes if and only if its own session is closed under this id or swept as expired |
| ServerSessionManager.EntriesAppear | common/libserver/ServerSessionManager.cpp:16-27 | only an admission adds an entry, its own |
| ServerSessionManager.ServerSessionManager.DoAddSession | common/libserver/ServerSessionManager.cpp:16-27 | the object makes the admission step of the state machine, or none when it is full |
| ServerSessionManager.ServerSessionManager.DoCloseSession | common/libserver/ServerSessionManager.cpp:77-81 | the object makes the closing step, and the session carries -1 |
| ServerSessionManager.ServerSessionManager.CheckSessionAlive | common/libserver/ServerSessionManager.cpp:29-43 | erasing while iterating, in any order, removes exactly the expired entries |
| IoLoopPool.IoLoopPool.GetNextLoop | common/libtools/IoLoopPool.cpp:123-141 | the loop whose turn it is, and the index moves on with wrap-around |
| IoLoopPool.TurnsAreFair | common/libtools/IoLoopPool.cpp:123-141 | after n picks loop j was picked n / k times, and once more if j < n mod k |
| IoLoopPool.CountIsMultiplicity | common/libtools/IoLoopPool.cpp:123-141 | the picks of a loop are counted as their multiplicity |
| IoLoopPool.WindowsAreFair | common/libtools/IoLoopPool.cpp:123-141 | in any n consecutive picks of a run every loop is picked floor(n/k) or ceil(n/k) times |
| IoLoopPool.IoLoopPool.PicksAreFair | common/libtools/IoLoopPool.cpp:123-141 | the same for the picks of every reachable pool object |

## Left out

- AesCore.Encrypt: the asserts on NULL arguments; arguments are not nullable here.
- Base64.CharPosition: a character outside the table makes `strchr` return NULL; the position is then arbitrary, so nothing is promised of malformed texts except lengths and bounds.
- Base64ChSet.DecodeText: requires that the source stays inside its tables of 128 entries and its buffer, since anything may happen beyond; does not model the overflow of its int position, which needs a text of at least 2^31 - 1 characters that does not end with a whole unit.
- AesBt.DecryptString: promises only a string without NUL for texts that are not well-formed or whose data is not whole blocks; the source then returns bytes that were never written.
- LobbyMsg.UserCommNotifyRequest.MergePartialFromCodedStream: a field that this message does not have ends the run of the model with `OtherField`, because unknown fields are kept by the library; after a failure only the object's invariant is promised; the input is what a fresh stream holds, so the casts of sizes in the library's wrappers are not modelled.
- LobbyMsg.UserCommNotifyRequest.ByteSizeLong: does not model the cached size, which is the result cast to int.
- ServerSessionManager.ServerSessionManager.DoAddSession: requires that the next id fits an int, because the source's addition is undefined beyond; `close`, `start` and `check_alive` of a session have no effect on the table, and calls posted to the loop are the events of a run.
- Md5.Md5Context.Final: does not model the trailing `memset(ctx, 0, sizeof(ctx))`, which clears four or eight bytes of the context; the big-endian `byteReverse` is not compiled on the modelled machine.
- The overloads of the string functions with a built-in seed (AesBt.cpp:8-13, 59-83) are the modelled ones with a constant seed.
- `AES_ecb128_decrypt` into a caller's buffer (AesBt.cpp:111-118): it passes an unallocated buffer to the decoder.
- `FULL_UNROLL`, the MSVC macros and `AES_LONG` in AesCore.cpp: not the compiled path.
- Reflection, arenas, descriptors, swap, the experimental parser and the other generated messages: library internals or the same pattern again.
- boost::circular_buffer is modelled by its documented behaviour on a sequence and a capacity, not by its memory layout.
- `Client`, `TcpSession`, `Session`, `MqClient`, timers, sockets, threads, logging, databases and configuration: I/O around the modelled code.
- `get_loop_with_hash`, `BigEndLittleEnd` and the getters: they would only add easy members.
