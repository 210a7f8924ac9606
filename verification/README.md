# Models and proofs for the checksum, cipher, hash, WebSocket and header code

This project models four families of code of the repository in Dafny and proves what they promise.

* **Checksums.** `Crc32` is the bit-at-a-time CRC-32 (section 8 of RFC 1952); `Crc32Tables`, `Crc32Fast` and
  `Crc32Combine` are the generated tables, the byte-wise, little-endian and byte-reversed loops and the combination of
  two CRCs by GF(2) matrices; `Crc32Samples` is the residue law and the check values. `Adler32` is the checksum of
  section 2.2 of RFC 1950 with the bounds behind its deferred reductions, `Adler32Code` the code in 32-bit arithmetic.
* **Ciphers and hashes.** `Gf256`, `AesTables`, `AesCipher`, `AesRounds`, `AesKeySchedule`, `AesContext`, `CipherModes`
  and `AesModes` go from the field GF(2^8) through table generation, the cipher and the equivalent inverse cipher of
  FIPS 197 to ECB, CBC, CFB128 and CFB8; `AesSbox` and `AesSamples` hold the S-box value by value and the examples of
  the standards. `Sha1` is the hash of FIPS 180-1, `Sha1App` and `Sha1Lib` the two implementations, `Sha1Agree` both fed
  the same message, `Sha1Samples` the two examples of the standard.
* **WebSocket framing and headers.** `WsFrame` is the wire form of section 5.2 of RFC 6455. `WsSend` is
  libwebsocket_write, `WsServerConn` and `WsClientConn` are the two receive machines as classes; both are proved to do
  the steps of `WsStep`, about whose runs `WsRun`, `WsServer` and `WsClient` prove what is delivered, and `WsDelivery`
  says it in terms of the opcodes on the wire alone. `WsSamples` holds the examples of the RFC. `WsExchange` puts a
  writing client and a reading server together, `WsClientRun` is a client that reads and writes in turns. `Lextable`,
  `Minilex`, `MinilexTable` and `MinilexTool` are the compiler from header names to a byte table and its decoder;
  `Headers`, `HeaderLines`, `HeaderStore`, `HeaderParser` and `HeaderRequest` are the header parser with its arena of
  linked fragments, `HeaderSet` the header names themselves; `ShippedBytes` and `ShippedTable` are the table that
  parsers.c carries, proved to recognise exactly these names.
* **Connection bookkeeping.** `RxFlow` is a server connection with receive flow control and its stash, `RxLoop` its byte
  loop on values, `PollTable` the table of poll descriptors with swap-with-last removal.

`Words`, `Octets`, `SevenBit` and `Options` hold bytes, words and small data types. Code that works step by step is
modelled by methods with loops and by classes, each proved against a function; the theorems are lemmas about those
functions and methods that run several operations together. Bytes are `bv8` and CRC, AES and SHA-1 words `bv32`, so that
their arithmetic wraps as in C.

Where the code does not do what its promise asks for, the exact condition is proved: a frame without data leaves the
server machine collecting (`WsServer.NewAfterFrame`), a client CLOSE with a reason is never well formed
(`WsSend.WireUnlessDisplaced`), a masked short frame gets a wrong length on a client (`WsClient.ShortLengthRight`) and a
masked long one is right only when the mask index happens to turn its key into itself (`WsClient.MaskedLongRight`), a
header value is the promised one only if the first line of its name is not blank or no later one holds a space
(`HeaderLines.MergedRight`), names that are not prefix-free cannot be told apart by any table
(`Lextable.OwnIndexNeedsPrefixFree`), a callback that pauses reception before the last byte of a buffer and does not return
0 leaves POLLIN armed beside a stash and the next bytes are lost (`RxFlow.Arrive`, `RxFlow.ArriveTwice`), adler32 of one
byte is not fully reduced for some starting values that are no checksums (`Adler32Code.Checksum`), and removing the last
poll entry leaves its look-up slot and position behind (`PollTable.Context.Remove`, `PollTable.Context.OnWritable`).

Verify with `dafny verify dfyconfig.toml --resource-limit 2000000 --verification-time-limit 0`.

## Model

| member | source | states |
|---|---|---|
| `Crc32Tables.PatternIsPoly` | app/libwebsockets-master/win32port/zlib/crc32.c:123-126 | The exclusive-or pattern that the loop over the polynomial terms builds is the constant 0xedb88320 of the bitwise definition |
| `Crc32Tables.MakePoly` | app/libwebsockets-master/win32port/zlib/crc32.c:123-126 | The loop over the terms array computes that pattern |
| `Crc32Tables.ByteCrc` | app/libwebsockets-master/win32port/zlib/crc32.c:128-134 | Eight shift steps give the register that a bitwise CRC reaches from this byte over eight zero bits |
| `Crc32Tables.CrcTable.constructor` | app/libwebsockets-master/win32port/zlib/crc32.c:108-150 | Table k maps a byte to the register after 8(k+1) zero bits for k below 4, and tables 4 to 7 hold the byte reversals of tables 0 to 3 |
| `Crc32.ZerosXor` | app/libwebsockets-master/win32port/zlib/crc32.c:94-100 | Advancing the register over any number of zero bits is linear for exclusive-or |
| `Crc32.ZerosAdd` | app/libwebsockets-master/win32port/zlib/crc32.c:94-100 | Advancing over m and then n zero bits is advancing over m + n |
| `Crc32.FeedWord` | app/libwebsockets-master/win32port/zlib/crc32.c:258-261 | Exclusive-oring a 32-bit word into the register and advancing 32 zero bits is feeding its four bytes one at a time, least significant first |
| `Crc32Tables.LookupIsFeed` | app/libwebsockets-master/win32port/zlib/crc32.c:217 | One table look-up is eight bit steps of the definition for every register and byte |
| `Crc32Tables.FourLookupsIsZeros` | app/libwebsockets-master/win32port/zlib/crc32.c:258-261 | The four look-ups of a DOLIT4 step advance any register by 32 zero bits |
| `Crc32Tables.RegisterFour` | app/libwebsockets-master/win32port/zlib/crc32.c:258-261 | A DOLIT4 step consumes four bytes of any string as the bitwise register does |
| `Crc32Tables.BigLookupIsFeed` | app/libwebsockets-master/win32port/zlib/crc32.c:304-337 | A byte step on the byte-reversed register is the reversal of the ordinary byte step |
| `Crc32Tables.FourBigLookupsIsRev` | app/libwebsockets-master/win32port/zlib/crc32.c:298-301 | The four look-ups in tables 4 to 7 on a reversed register give the reversal of four look-ups in tables 0 to 3 |
| `Crc32Fast.Crc32Bytewise` | app/libwebsockets-master/win32port/zlib/crc32.c:217-253 | The one-byte-at-a-time table loop returns the bitwise CRC of every buffer for every starting value |
| `Crc32Fast.LittleFour` | app/libwebsockets-master/win32port/zlib/crc32.c:258-261 | One four-byte step keeps the bitwise register of the remaining buffer |
| `Crc32Fast.Crc32Little` | app/libwebsockets-master/win32port/zlib/crc32.c:264-295 | For every buffer, address and starting value the little-endian form, with its byte prefix to a word boundary, 32-byte rounds, words and byte tail, returns the bitwise CRC |
| `Crc32Fast.BigFour` | app/libwebsockets-master/win32port/zlib/crc32.c:298-301 | One four-byte step on the reversed register keeps the bitwise register of the remaining buffer |
| `Crc32Fast.Crc32Big` | app/libwebsockets-master/win32port/zlib/crc32.c:304-337 | For every buffer, address and starting value the byte-reversed form returns the bitwise CRC, hence the same value as the little-endian form |
| `Crc32Fast.Crc32Of` | app/libwebsockets-master/win32port/zlib/crc32.c:221-253 | crc32 returns 0 for a null buffer and the bitwise CRC otherwise, whichever form is chosen |
| `Crc32Samples.Residue` | app/libwebsockets-master/win32port/zlib/crc32.c:221-253 | A buffer followed by the four little-endian bytes of its CRC has the CRC 0x2144df1c, for every buffer and every starting value |
| `Crc32Samples.KnownValues` | app/libwebsockets-master/win32port/zlib/crc32.c:221-253 | The CRC of "123456789" is 0xcbf43926 and that of "a" is 0xe8b7be43 |
| `Crc32Samples.CheckValue` | app/libwebsockets-master/win32port/zlib/crc32.c:221-253 | crc32 returns 0xcbf43926 for "123456789", whichever form is chosen and wherever the buffer lies |
| `Crc32Combine.MatrixTimes` | app/libwebsockets-master/win32port/zlib/crc32.c:344-358 | A product with a matrix that represents n zero bits is the register advanced by n zero bits |
| `Crc32Combine.MatrixSquare` | app/libwebsockets-master/win32port/zlib/crc32.c:361-369 | Squaring the matrix of n zero bits gives the matrix of 2n zero bits |
| `Crc32Combine.OneZeroBit` | app/libwebsockets-master/win32port/zlib/crc32.c:386-392 | The first matrix represents one zero bit |
| `Crc32Combine.Crc32CombineOf` | app/libwebsockets-master/win32port/zlib/crc32.c:372-425 | Over the bits of any length, keeping even and odd at squared powers, the loop returns the first CRC advanced by eight zero bits a byte, exclusive-ored with the second; lengths that are not positive return the first CRC |
| `Crc32Combine.RegisterConcat` | app/libwebsockets-master/win32port/zlib/crc32.c:372-425 | Registers compose over concatenation |
| `Crc32Combine.CombineExtends` | app/libwebsockets-master/win32port/zlib/crc32.c:372-425 | For every starting CRC c and bytes B, combining c with the CRC of B started at 0 and the length of B gives the CRC of B started at c |
| `Crc32Combine.CombineConcat` | app/libwebsockets-master/win32port/zlib/crc32.c:372-425 | The CRCs of A and of B combine to the CRC of A followed by B, for every start |
| `Adler32.AdlerIsRaw` | app/libwebsockets-master/win32port/zlib/adler32.c:99-124 | Reducing both sums at every byte gives the same as summing freely and reducing once, for every start unless there is no byte at all |
| `Adler32.KnownSums` | app/libwebsockets-master/win32port/zlib/adler32.c:60-128 | The checksum of "Wikipedia" is 0x11e60398, and both sums wrap at 65521 |
| `Adler32.RawOfMod` | app/libwebsockets-master/win32port/zlib/adler32.c:99-124 | Reducing between blocks does not change the final reduced sums |
| `Adler32.RawBound` | app/libwebsockets-master/win32port/zlib/adler32.c:15-16 | After n bytes from any two 16-bit halves the sum of sums is at most 65535(n+1) + 255 n(n+1)/2 |
| `Adler32.BlockFits` | app/libwebsockets-master/win32port/zlib/adler32.c:15-16 | No sum reaches 2^32 within a block of NMAX bytes, whatever the two 16-bit halves it starts from |
| `Adler32.BlockIsMaximal` | app/libwebsockets-master/win32port/zlib/adler32.c:15-16 | NMAX cannot be larger: NMAX + 1 bytes of 255 on the largest reduced start reach 2^32 |
| `Adler32.RawMoves` | app/libwebsockets-master/win32port/zlib/adler32.c:131-152 | Moving the start of a checksum moves both sums linearly, the second by the length times the move of the first |
| `Adler32.AdlerOfConcat` | app/libwebsockets-master/win32port/zlib/adler32.c:131-152 | The checksum of a concatenation is the combine formula of the two checksums, the second started at 1, and the second length, for every start |
| `Adler32Code.TakeAway` | app/libwebsockets-master/win32port/zlib/adler32.c:27-43 | One conditional subtraction of BASE shifted by i halves the bound and keeps the remainder |
| `Adler32Code.ModChain` | app/libwebsockets-master/win32port/zlib/adler32.c:25-45 | The chain of 17 conditional subtractions computes the remainder by BASE for every 32-bit value |
| `Adler32Code.Mod4Chain` | app/libwebsockets-master/win32port/zlib/adler32.c:46-53 | The chain of five computes it for every value below 32 BASE |
| `Adler32Code.AddBytes` | app/libwebsockets-master/win32port/zlib/adler32.c:18-22 | A block of at most NMAX bytes is summed in 32 bits without wrapping, to the free sums of the bytes |
| `Adler32Code.OneByte` | app/libwebsockets-master/win32port/zlib/adler32.c:72-81 | One byte after any two 16-bit halves: one conditional subtraction reduces the first sum, and the second one exactly when it is below twice BASE |
| `Adler32Code.ShortBound` | app/libwebsockets-master/win32port/zlib/adler32.c:87-97 | After fewer than 16 bytes one subtraction suffices for the first sum and five for the second |
| `Adler32Code.Short` | app/libwebsockets-master/win32port/zlib/adler32.c:87-97 | The short path returns both sums fully reduced, from any two 16-bit halves |
| `Adler32Code.Block` | app/libwebsockets-master/win32port/zlib/adler32.c:100-109 | A block followed by its two reductions gives both sums of the block fully reduced |
| `Adler32Code.Long` | app/libwebsockets-master/win32port/zlib/adler32.c:99-127 | The NMAX blocks and the rest return both sums of the buffer fully reduced |
| `Adler32Code.Checksum` | app/libwebsockets-master/win32port/zlib/adler32.c:60-128 | For every 32-bit starting value and every buffer adler32 is congruent to the checksum that reduces at every byte, and equal to it exactly when a single byte does not push an unreduced second sum to twice BASE and no bytes meet a reduced start; a null buffer returns 1 |
| `Adler32Code.FoldThree` | app/libwebsockets-master/win32port/zlib/adler32.c:147-148 | Two conditional subtractions reduce any sum below 3 BASE |
| `Adler32Code.FoldFour` | app/libwebsockets-master/win32port/zlib/adler32.c:149-150 | One of twice BASE and one of BASE reduce any sum below 4 BASE |
| `Adler32Code.CombineChecksums` | app/libwebsockets-master/win32port/zlib/adler32.c:131-152 | Conditional subtractions alone leave both sums of the combine formula fully reduced, without 32-bit overflow |
| `Adler32Code.CombineLaw` | app/libwebsockets-master/win32port/zlib/adler32.c:131-152 | For all byte strings A and B the checksums of A and of B combine to the checksum of A followed by B |
| `Gf256.NoShortPeriod` | app/libwebsockets-master/srl/aes.c:383-391 | No positive power of the generator 3 below 255 is 1 |
| `Gf256.PowInjective` | app/libwebsockets-master/srl/aes.c:383-391 | The 255 powers in the pow table are pairwise different |
| `Gf256.LogExists` | app/libwebsockets-master/srl/aes.c:383-391 | Every nonzero byte occurs among them, so that the log table is total |
| `Gf256.MulByLogs` | app/libwebsockets-master/srl/aes.c:373 | The MUL macro, a sum of logarithms modulo 255, is multiplication in GF(2^8) |
| `Gf256.InverseLaws` | app/libwebsockets-master/srl/aes.c:408-410 | pow[255 - log[x]] is the multiplicative inverse, and inverting twice gives x back |
| `AesTables.PowLog` | app/libwebsockets-master/srl/aes.c:383-391 | The first loop fills pow with the powers of 3 and log with the exponents of all nonzero bytes |
| `AesTables.RoundConstants` | app/libwebsockets-master/srl/aes.c:393-400 | The round constants are the successive powers of 2 |
| `AesTables.SubInverse` | app/libwebsockets-master/srl/aes.c:402-420 | The inverse S-box undoes the S-box and the other way round, for every byte |
| `AesSbox.SubTable` | app/libwebsockets-master/srl/aes.c:402-420 | The affine map of the inverse has the 256 values of figure 7 of FIPS 197, byte for byte |
| `AesSbox.GeneratedIsShipped` | app/libwebsockets-master/srl/aes.c:82-116 | The S-box that is generated at run time is the constant table of the build with tables in read-only memory |
| `AesTables.SBoxes` | app/libwebsockets-master/srl/aes.c:402-420 | FSb is the affine map of the inverse of every byte and RSb is its inverse table |
| `AesTables.ForwardTables` | app/libwebsockets-master/srl/aes.c:422-438 | The four forward tables hold the MixColumns columns of the S-box values and their rotations |
| `AesTables.ReverseTables` | app/libwebsockets-master/srl/aes.c:440-450 | The four reverse tables hold the InvMixColumns columns of the inverse S-box values |
| `AesTables.GenTables` | app/libwebsockets-master/srl/aes.c:377-452 | All ten tables hold what section 5 of FIPS 197 defines |
| `AesRounds.FRound` | app/libwebsockets-master/srl/aes.c:643-664 | One table round is SubBytes, ShiftRows, MixColumns and AddRoundKey |
| `AesRounds.RRound` | app/libwebsockets-master/srl/aes.c:666-687 | One reverse table round is a round of the equivalent inverse cipher |
| `AesRounds.FFinal` | app/libwebsockets-master/srl/aes.c:766-790 | The final round leaves MixColumns out |
| `AesRounds.RFinal` | app/libwebsockets-master/srl/aes.c:732-756 | The final inverse round leaves InvMixColumns out |
| `AesRounds.InvMixLookups` | app/libwebsockets-master/srl/aes.c:619-628 | RT of FSb of each byte of a word is InvMixColumns of the word |
| `AesCipher.InvMixOfMix` | app/libwebsockets-master/srl/aes.c:573-639 | InvMixColumns undoes MixColumns on every column |
| `AesCipher.InvMixXor` | app/libwebsockets-master/srl/aes.c:573-639 | InvMixColumns is linear, which is what lets it be moved into the round keys |
| `AesCipher.InverseRounds` | app/libwebsockets-master/srl/aes.c:692-798 | After r rounds of the equivalent inverse cipher the state is the shifted and substituted state of the cipher with r rounds fewer |
| `AesCipher.DecryptsCipher` | app/libwebsockets-master/srl/aes.c:573-798 | For every list of at least two round keys the equivalent inverse cipher under the transformed keys undoes the cipher |
| `AesKeySchedule.RowStart` | app/libwebsockets-master/srl/aes.c:500-548 | The first word of a row is the old one, the round constant and the rotated and substituted last word |
| `AesKeySchedule.RowNext` | app/libwebsockets-master/srl/aes.c:500-559 | Every other word of a row is the exclusive or of its two predecessors |
| `AesKeySchedule.RowMiddle` | app/libwebsockets-master/srl/aes.c:550-554 | With 256-bit keys the fifth word of a row is substituted without rotation |
| `AesSamples.RotWordTurns` | app/libwebsockets-master/srl/aes.c:507-511 | The rotation of a round key word moves its first byte to its end |
| `AesSamples.RoundConstantValues` | app/libwebsockets-master/srl/aes.c:393-400 | The ten round constants are 01, 02, 04, 08, 10, 20, 40, 80, 1b and 36 |
| `AesSamples.RoundKeys128` | app/libwebsockets-master/srl/aes.c:500-516 | The key expansion of section A.1 of FIPS 197, all eleven round keys, word 4 being a0fafe17 |
| `AesSamples.Expands192` | app/libwebsockets-master/srl/aes.c:518-531 | The first six words that section A.2 adds to its key, from fe0c91f7 on |
| `AesSamples.Expands256` | app/libwebsockets-master/srl/aes.c:533-558 | The first eight words that section A.3 adds to its key, from 9ba35411 on, the substituted fifth one being a8b09c1a |
| `AesSamples.AppendixBlock` | app/libwebsockets-master/srl/aes.c:692-798 | Under that schedule the block of appendix B becomes 3925841d02dc09fbdc118597196a0b32 |
| `AesContext.Context.SetKeyEnc` | app/libwebsockets-master/srl/aes.c:458-568 | For 128, 192 and 256 bits the round keys become the key expansion of section 5.2 of FIPS 197; other sizes return the error and change nothing |
| `AesContext.DecWordsAreInvKeys` | app/libwebsockets-master/srl/aes.c:612-634 | The word order and transformation of the decryption schedule are the reversed round keys with InvMixColumns on the inner ones |
| `AesContext.Context.SetKeyDec` | app/libwebsockets-master/srl/aes.c:573-639 | The round keys become those of the equivalent inverse cipher; other sizes return the error and change nothing |
| `AesContext.Context.EncryptState` | app/libwebsockets-master/srl/aes.c:758-791 | The unrolled pairs of rounds are the cipher with the context keys |
| `AesContext.Context.DecryptState` | app/libwebsockets-master/srl/aes.c:724-757 | They are the equivalent inverse cipher with the context keys |
| `AesContext.Context.CryptEcb` | app/libwebsockets-master/srl/aes.c:692-801 | Sixteen output bytes are the block cipher of the sixteen input bytes, in place or not, and nothing else changes |
| `AesContext.DecryptsBlock` | app/libwebsockets-master/srl/aes.c:692-801 | Decrypting an encrypted block under the transformed keys returns the block |
| `CipherModes.CbcRoundTrip` | app/libwebsockets-master/srl/aes.c:805-864 | CBC decryption undoes encryption for every length divisible by 16 and every block function with an inverse |
| `CipherModes.CbcBlockAt` | app/libwebsockets-master/srl/aes.c:805-864 | Block k of the result is the block cipher of block k added byte by byte to the block of the result before it, the first of these being the IV |
| `AesModes.CryptCbc` | app/libwebsockets-master/srl/aes.c:805-864 | The loops compute CBC of all blocks in either mode, in place or not, leave the last ciphertext block in iv, and refuse other lengths without changing anything |
| `AesModes.CbcDecrypts` | app/libwebsockets-master/srl/aes.c:805-864 | For every key, IV and whole number of blocks, CBC decryption under the decryption key undoes CBC encryption under the encryption key |
| `CipherModes.CfbConcat` | app/libwebsockets-master/srl/aes.c:871-912 | CFB128 on a concatenation is CFB128 on the parts with the carried iv and offset |
| `CipherModes.CfbChunking` | app/libwebsockets-master/srl/aes.c:871-912 | Any sequence of calls with carried iv and offset outputs what one call on the whole outputs |
| `CipherModes.CfbDecrypts` | app/libwebsockets-master/srl/aes.c:871-912 | CFB128 decryption undoes encryption from any offset and both end in the same state |
| `CipherModes.CfbByteAt` | app/libwebsockets-master/srl/aes.c:871-912 | Byte k of a CFB128 run is its input added to byte k modulo 16 of the encrypted IV or of the encrypted block of ciphertext before its own, in both modes |
| `CipherModes.CfbRoundTrip` | app/libwebsockets-master/srl/aes.c:871-912 | Decryption undoes encryption for every pair of chunkings |
| `AesModes.CryptCfb128` | app/libwebsockets-master/srl/aes.c:871-912 | The byte loop computes CFB128 from any offset, in place or not, and returns the register and the byte count modulo 16 |
| `CipherModes.Cfb8RoundTrip` | app/libwebsockets-master/srl/aes.c:918-945 | CFB8 decryption undoes encryption for every length, IV and block function |
| `CipherModes.Cfb8ByteAt` | app/libwebsockets-master/srl/aes.c:918-945 | Byte k is decrypted with the first byte of the encrypted 16 bytes of IV and ciphertext before it |
| `CipherModes.Cfb8SelfSynchronizes` | app/libwebsockets-master/srl/aes.c:918-945 | From byte 16 on decryption is right whatever IV it was started with |
| `AesSamples.Cfb8Example` | app/libwebsockets-master/srl/aes.c:918-945 | The CFB8 example in section F.3.7 of SP 800-38A starts with 3b for 6b |
| `AesModes.CryptCfb8` | app/libwebsockets-master/srl/aes.c:918-945 | The byte loop computes CFB8 in either mode, in place or not, and leaves the last 16 ciphertext bytes, shifted in behind the IV, in iv |
| `Sha1App.Expand` | app/sha1.c:221-235 | The 80-word array holds the schedule of section 7 of FIPS 180-1 |
| `Sha1App.ProcessBlock` | app/sha1.c:207-298 | The four loops of twenty rounds over the 80-word schedule are the compression function |
| `Sha1App.SHA1Context.constructor` | app/sha1.c:71-86 | A reset context is ready for the empty message |
| `Sha1App.SHA1Context.CountByte` | app/sha1.c:163-176 | The two 32-bit length words count bits with carry, and report overflow exactly at 2^64 bits |
| `Sha1App.SHA1Context.Input` | app/sha1.c:143-186 | Input appends to the message for any chunking; the context becomes corrupted exactly when the message reaches 2^61 bytes or input follows a result |
| `Sha1App.SHA1Context.PadBlock` | app/sha1.c:326-356 | A 0x80 byte and zeroes fill the block up to byte 56, through a second block when more than 55 bytes were used |
| `Sha1App.SHA1Context.PadMessage` | app/sha1.c:326-371 | The digest becomes the fold of the compression over the padded message |
| `Sha1App.SHA1Context.Result` | app/sha1.c:104-120 | The result is 1 with the digest of the whole message, also when asked again, and 0 for a corrupted context |
| `Sha1.PadCount` | app/sha1.c:334-356 | How many zeroes follow the 0x80 byte in either case of the block index |
| `Sha1.LengthHalves` | app/sha1.c:358-368 | The two length words give the eight bytes of the 64-bit length |
| `Sha1Agree.AppDigest` | app/sha1.c:71-186 | Over any chunking SHA1Result returns 1 and the digest of the joined message exactly when it is shorter than 2^61 bytes |
| `Sha1Samples.RotationsAre` | app/sha1.c:234 | The rotations by 5 and by 30 are the rotation of the schedule taken 5 and 30 times |
| `Sha1Samples.RotationMoves` | app/sha1.c:234 | The rotation by one moves the top bit to the bottom and every other bit up |
| `Sha1Samples.ConstantsAreRoots` | app/sha1.c:209-215 | The four constants are the whole parts of 2^30 times the square roots of 2, 3, 5 and 10 |
| `Sha1Samples.AbcDigest` | app/sha1.c:207-298 | The digest of appendix A of FIPS 180-1: abc hashes to a9993e364706816aba3e25717850c26c9cd0d89d |
| `Sha1Samples.LongDigest` | app/sha1.c:207-298 | The digest of appendix B, the message of 56 letters: 84983e441c3bd26ebaae4aa1f95129e5e54670f1 |
| `Sha1Samples.Digests` | app/sha1.c:71-186 | Both implementations return these two digests, however the messages are cut |
| `Sha1Lib.SlotBack` | app/libwebsockets-master/lib/sha-1.c:177-180 | The slots (s+13), (s+8), (s+2) and s modulo 16 are those of the words 3, 8, 14 and 16 rounds back |
| `Sha1Lib.WindowMoves` | app/libwebsockets-master/lib/sha-1.c:177-180 | Overwriting one slot keeps every slot holding the latest schedule word whose index is congruent to it modulo 16 |
| `Sha1Lib.Refresh` | app/libwebsockets-master/lib/sha-1.c:176-180 | The in-place update of a round writes the schedule word of the round |
| `Sha1Lib.CircularRounds` | app/libwebsockets-master/lib/sha-1.c:174-211 | The four loops on the circular 16-word window are the compression function with the 80-word schedule |
| `Sha1Lib.SwappedLoad` | app/libwebsockets-master/lib/sha-1.c:136-172 | A little-endian load of four swapped bytes is the big-endian load of the original ones |
| `Sha1Lib.Sha1Ctxt.LoadWords` | app/libwebsockets-master/lib/sha-1.c:136-172 | Swapping the block in place makes its 32-bit view the big-endian words of the block |
| `Sha1Lib.Sha1Ctxt.Step` | app/libwebsockets-master/lib/sha-1.c:130-214 | One step folds the block into the digest and clears it |
| `Sha1Lib.Sha1Ctxt.PutPad` | app/libwebsockets-master/lib/sha-1.c:120-126 | PUTPAD appends one byte to what has entered the block, stepping when it is full |
| `Sha1Lib.Sha1Ctxt.Loop` | app/libwebsockets-master/lib/sha-1.c:263-286 | sha1_loop appends its whole input to the message, whatever its length and the fill of the block |
| `Sha1Lib.Sha1Ctxt.PadGap` | app/libwebsockets-master/lib/sha-1.c:229-249 | The 0x80 byte and the zeroes reach byte 56, through another block when fewer than eight bytes are left |
| `Sha1.LengthWraps` | app/libwebsockets-master/lib/sha-1.c:250-260 | A bit count kept modulo 2^64 has the same eight length bytes |
| `Sha1Lib.Sha1Ctxt.Pad` | app/libwebsockets-master/lib/sha-1.c:229-261 | What has been folded in the end is exactly the padded message |
| `Sha1Lib.Sha1Ctxt.Result` | app/libwebsockets-master/lib/sha-1.c:288-309 | The twenty bytes are the digest of the message, for every message length |
| `Sha1Lib.SHA1` | app/libwebsockets-master/lib/sha-1.c:315-325 | The one-call interface returns the digest of its argument |
| `Sha1Agree.LibDigest` | app/libwebsockets-master/lib/sha-1.c:218-309 | Over any chunking the twenty bytes are the digest of the joined message |
| `Sha1Agree.Compare` | app/libwebsockets-master/lib/sha-1.c:131-309 | Both implementations agree on every message shorter than 2^61 bytes however each of the two is fed, and the application one reports failure for every longer message |
| `Sha1.FoldAppend` | app/libwebsockets-master/lib/sha-1.c:263-286 | Folding the compression over whole blocks composes |
| `Lextable.Decode` | app/libwebsockets-master/lib/minilex.c:306-321 | A walk inside a closed table never leaves it, and moves strictly forward unless it stands on a terminal |
| `Lextable.LextableDecode` | app/libwebsockets-master/lib/minilex.c:306-321 | The loop returns what the recursive definition of decoding returns |
| `Lextable.RunExtends` | app/libwebsockets-master/lib/minilex.c:416-434 | A walk never looks past the terminal it stops at |
| `Lextable.OwnIndexNeedsPrefixFree` | app/libwebsockets-master/lib/minilex.c:416-434 | No table whatsoever can send every name to its own index unless the names are prefix-free, so that the condition on the names is exact |
| `Minilex.StepSeen` | app/libwebsockets-master/lib/minilex.c:342-348 | Following an option that exists keeps the trie invariant with one more character of the name |
| `Minilex.NewLabel` | app/libwebsockets-master/lib/minilex.c:353-361 | A character with no option leads to a prefix that no state stands for yet |
| `Minilex.StepNew` | app/libwebsockets-master/lib/minilex.c:353-361 | Opening a state for it keeps the invariant |
| `Minilex.EndIsFree` | app/libwebsockets-master/lib/minilex.c:366-368 | With prefix-free names the last state of a name has no options, so that writing the marker loses nothing |
| `Minilex.Finish` | app/libwebsockets-master/lib/minilex.c:366-368 | Writing the marker keeps the invariant with one more name done |
| `MinilexTool.StatesFit` | app/libwebsockets-master/lib/minilex.c:303-304 | The 1000 states suffice while the names have at most 1000 prefixes |
| `MinilexTool.OptionsFit` | app/libwebsockets-master/lib/minilex.c:294-301 | The 30 options of a state suffice while no prefix is followed by more than 30 characters |
| `MinilexTool.Lexer.Find` | app/libwebsockets-master/lib/minilex.c:342-348 | The search finds an option for the character exactly when there is one |
| `MinilexTool.Lexer.Step` | app/libwebsockets-master/lib/minilex.c:340-364 | One character of a name moves the walk to the state of the longer prefix, in the arrays |
| `MinilexTool.Lexer.AddName` | app/libwebsockets-master/lib/minilex.c:334-372 | One name is added to the trie in the arrays |
| `MinilexTool.Lexer.Build` | app/libwebsockets-master/lib/minilex.c:334-372 | All names are in the trie, and every state but the root hangs from one option |
| `MinilexTool.StatesArePrefixes` | app/libwebsockets-master/lib/minilex.c:334-372 | The states are exactly the prefixes of the names, one each |
| `MinilexTool.Lexer.Layout` | app/libwebsockets-master/lib/minilex.c:374-378 | bytepos is twice the number of options in the states before |
| `MinilexTool.Lexer.Row` | app/libwebsockets-master/lib/minilex.c:392-411 | A printed pair is the character with its flag and half the jump; it fails exactly when that does not fit a byte |
| `MinilexTool.Lexer.Emit` | app/libwebsockets-master/lib/minilex.c:388-414 | The printed bytes are the table of the trie and stay inside it; printing fails exactly when some jump spans more than 510 bytes |
| `MinilexTable.JumpForward` | app/libwebsockets-master/lib/minilex.c:401-409 | Every jump is strictly forward |
| `MinilexTable.DecodeInner` | app/libwebsockets-master/lib/minilex.c:306-321 | Decoding at a state finds the first option for the character and lands on the start of its target, or fails |
| `MinilexTable.RunFinds` | app/libwebsockets-master/lib/minilex.c:416-434 | The walk of any string that starts with a name stops at the terminal of that name |
| `MinilexTable.RunRejects` | app/libwebsockets-master/lib/minilex.c:416-434 | The walk of a string with no name in front finds nothing |
| `MinilexTable.Recognises` | app/libwebsockets-master/lib/minilex.c:388-434 | A walk from the first byte finds index i exactly when the string starts with name i |
| `MinilexTable.MarkersNamed` | app/libwebsockets-master/lib/minilex.c:392-411 | Every terminal marker holds the index of a name |
| `MinilexTool.Compile` | app/libwebsockets-master/lib/minilex.c:324-436 | For every prefix-free set of 7-bit names within the sizes of the arrays the whole program emits a table of two bytes for every nonempty prefix and every name that recognises exactly the names; it cannot fail on sets that need at most 256 options |
| `WsFrame.FirstByteLaws` | app/libwebsockets-master/lib/output.c:439-478 | The opcode nibble, zero reserved bits and FIN can be read back from the first byte |
| `WsFrame.OctetInPlace` | app/libwebsockets-master/lib/output.c:480-511 | Or-ing the next octet of a length into its place completes one octet more, for every length |
| `WsSend.Writer.PutHeader` | app/libwebsockets-master/lib/output.c:480-511 | In place, right before the payload or key, stand the first byte and the shortest length form with the mask flag; nothing else changes |
| `WsSend.Writer.MaskInPlace` | app/libwebsockets-master/lib/output.c:530-536 | The loop with the 8-bit index exclusive-ors byte i with key byte i modulo 4, for every length |
| `WsSend.Writer.MaskAndKey` | app/libwebsockets-master/lib/output.c:530-540 | The payload is masked in place and the key stands right before it |
| `WsSend.Writer.GenerateMask` | app/libwebsockets-master/lib/output.c:28-47 | A fresh key starts from mask index 0; without random bytes nothing changes |
| `WsSend.Writer.WriteFrame` | app/libwebsockets-master/lib/output.c:430-541 | What is sent is the wire form of the frame that was meant, except for a CLOSE with a reason on a client, where the exact bytes are given |
| `WsSend.WireUnlessDisplaced` | app/libwebsockets-master/lib/output.c:355-541 | What a write sends is the wire form of the frame that was meant exactly when it is not a CLOSE with a reason on a client |
| `WsSend.Writer.Write` | app/libwebsockets-master/lib/output.c:355-600 | The returned value, the bytes sent and the fields changed for every protocol, state and length, including the refused and ignored writes; a text, binary or continuation write starts with its opcode and FIN |
| `WsSend.SentFirst` | app/libwebsockets-master/lib/output.c:439-478 | The first byte sent is 0x81, 0x82, 0x80, 0x88, 0x89 or 0x8a for the six kinds of frame, and the same without the top bit with NO_FIN |
| `WsSamples.HelloFrames` | app/libwebsockets-master/lib/output.c:430-541 | The wire forms of the short examples in section 5.7 of RFC 6455, masked and unmasked, text, fragments, ping and pong |
| `WsSamples.LongHeaders` | app/libwebsockets-master/lib/output.c:480-511 | The headers of its two long examples |
| `WsRx.SlotNext` | app/libwebsockets-master/lib/parsers.c:872-875 | The 8-bit mask index may wrap: its two low bits go on counting modulo 4 |
| `WsFrame.OrAdds` | app/libwebsockets-master/lib/parsers.c:755-822 | Or-ing an octet into a place that is still zero adds it there |
| `WsRun.HeaderFed` | app/libwebsockets-master/lib/parsers.c:633-828 | All three length encodings of a frame bring the machine to the same state with its length, opcode, FIN and mask flag, without any event |
| `WsRun.KeyFed` | app/libwebsockets-master/lib/parsers.c:830-862 | The four key bytes are stored, the all-zero flag is exact and the mask index is 0 |
| `WsRun.DataStep` | app/libwebsockets-master/lib/parsers.c:863-897 | One payload byte is unmasked and stored, and spilled when the frame is complete or the buffer full |
| `WsRun.DataFed` | app/libwebsockets-master/lib/parsers.c:863-897 | The rest of a payload is shown in pieces of the buffer size and the machine is back at New |
| `WsRun.PiecesCarry` | app/libwebsockets-master/lib/parsers.c:899-1035 | The pieces of a data frame carry its opcode and FIN, are neither empty nor larger than the buffer, tell how much is still to come, and make up exactly the payload |
| `WsStep.RefusedExactly` | app/libwebsockets-master/lib/parsers.c:619-1035 | A byte is refused exactly when it is the long length of a control frame, a 64-bit length with its top bit, or completes a CLOSE, a PONG that cannot be sent or data the user refuses |
| `WsRun.ZeroKeyMasks` | app/libwebsockets-master/lib/parsers.c:868-870 | With an all-zero key the bytes on the wire are the payload, so that the shortcut is right |
| `WsServer.FrameFed` | app/libwebsockets-master/lib/parsers.c:619-1035 | Every frame with data that is not CLOSE is delivered in its pieces for every buffer size, and the machine waits for the next frame |
| `WsServer.ServerDelivers` | app/libwebsockets-master/lib/parsers.c:619-1035 | So is every list of such frames, each with its own key or none, in order |
| `WsDelivery.ServerBrings` | app/libwebsockets-master/lib/parsers.c:619-1035 | Without the notion of a data opcode: what the user receives cuts into one run of non-empty pieces for each frame of opcode 0, 1 or 2, each piece with that opcode and FIN, and the pieces of a run make up its payload |
| `WsDelivery.AllPiecesBring` | app/libwebsockets-master/lib/parsers.c:952-955 | The same of the pieces of any list of frames |
| `WsServer.PingEchoed` | app/libwebsockets-master/lib/parsers.c:932-948 | A ping that fits the buffer is answered by one pong with its data |
| `WsServer.CloseFed` | app/libwebsockets-master/lib/parsers.c:851-930 | A CLOSE that fits the buffer is echoed and ends the connection, silently when it acknowledges our own; without data it does so only if it has a key, and otherwise leaves the machine collecting a payload of length 0 |
| `WsServer.NewAfterFrame` | app/libwebsockets-master/lib/parsers.c:851-862 | After a frame other than CLOSE the machine waits for a new one exactly when the frame had data; an empty frame leaves it collecting a payload of length 0 |
| `WsServerConn.ServerConn.HandleLength` | app/libwebsockets-master/lib/parsers.c:724-753 | The length byte does its step, refusing long control frames |
| `WsServerConn.ServerConn.HandleKey` | app/libwebsockets-master/lib/parsers.c:830-862 | A key byte does its step |
| `WsServerConn.ServerConn.HandlePayload` | app/libwebsockets-master/lib/parsers.c:863-897 | A payload byte does its step on the buffer, which never overflows |
| `WsServerConn.ServerConn.HandleSpill` | app/libwebsockets-master/lib/parsers.c:899-1032 | A spill does its step for every opcode |
| `WsServerConn.ServerConn.RxSm` | app/libwebsockets-master/lib/parsers.c:619-1044 | One byte updates the fields of the connection exactly as the step function says, with its return value and event |
| `WsExchange.Exchange` | app/libwebsockets-master/lib/parsers.c:619-1094 | Every list of messages written by a client with any keys reaches the server in order, in pieces of the buffer size: one run of pieces for each text, binary or continuation message, with opcode 1, 2 or 0 and its FIN, that make up its data; and the server waits for the next frame |
| `WsExchange.ExchangeThrottled` | app/libwebsockets-master/lib/parsers.c:619-1094 | The same when the user pauses and resumes reception and the stream arrives in any cuts: what has been shown is always a beginning of the pieces of all messages, and all of them once everything has gone in, which it does when the last turns resume, do not pause and bring the rest |
| `WsExchange.SendAll` | app/libwebsockets-master/lib/output.c:355-600 | The bytes a client sends for a list of messages are the wire forms of their frames, one after the other |
| `WsClient.EmptyFed` | app/libwebsockets-master/lib/client-parser.c:61-93 | An empty unmasked frame is complete after its header and shows only the pong of a ping |
| `WsClient.FrameFed` | app/libwebsockets-master/lib/client-parser.c:24-413 | Every unmasked frame other than CLOSE is recovered and the machine waits for the next one |
| `WsClient.ClientDelivers` | app/libwebsockets-master/lib/client-parser.c:24-413 | So is every list of such frames, and no step of it reads or writes the key fields |
| `WsDelivery.ClientBrings` | app/libwebsockets-master/lib/client-parser.c:24-413 | What the user receives cuts into one run for each frame of opcode 0, 1 or 2, with that opcode, its FIN and its payload |
| `WsClient.StepAlike` | app/libwebsockets-master/lib/client-parser.c:24-413 | A step that has nothing to do with keys comes out the same whatever writes leave in the nonce and the mask index before it and within it |
| `WsClient.ShortLengthRight` | app/libwebsockets-master/lib/client-parser.c:76-91 | After the header of a short frame, empty ones included, the length is right exactly when the frame has no key; otherwise it is 128 too large |
| `WsClient.MaskedLongFed` | app/libwebsockets-master/lib/client-parser.c:183-250 | A masked data frame of 126 bytes or more ends at the right place, but its data comes out masked twice, the second time with the key turned by the mask index, which the client never sets back |
| `WsClient.MaskedLongRight` | app/libwebsockets-master/lib/client-parser.c:183-250 | So it is shown as it was sent exactly when turning the key by the mask index does not change it |
| `WsClientConn.ClientConn.HandleLength` | app/libwebsockets-master/lib/client-parser.c:61-94 | The length byte does its step, keeping the mask bit in a short length |
| `WsClientConn.ClientConn.HandleKey` | app/libwebsockets-master/lib/client-parser.c:183-216 | A key byte does its step |
| `WsClientConn.ClientConn.HandlePayload` | app/libwebsockets-master/lib/client-parser.c:218-252 | A payload byte does its step on the buffer, which never overflows |
| `WsClientConn.ClientConn.HandleSpill` | app/libwebsockets-master/lib/client-parser.c:254-407 | A spill does its step for every opcode; pongs and echoes leave masked from the receive buffer with the wire form of their frame |
| `WsClientConn.ClientConn.RxSm` | app/libwebsockets-master/lib/client-parser.c:24-420 | One byte updates the fields of the connection exactly as the step function says, the shared key fields included |
| `WsClientRun.TakeByte` | app/libwebsockets-master/lib/client-parser.c:24-420 | The connection follows the machine that nobody writes from through every step that does not use the key |
| `WsClientRun.Converse` | app/libwebsockets-master/lib/client-parser.c:24-420 | In any interleaving of received bytes and calls of libwebsocket_write the connection recovers every list of unmasked frames, shows the user one run of pieces for each frame of opcode 0, 1 or 2, and waits for the next frame; what it sends are the wire forms of its own messages and of the pongs, in order |
| `Headers.StepKeeps` | app/libwebsockets-master/lib/parsers.c:407-600 | No step overflows the arena or the fragment table, and an unfinished value belongs to the last fragment |
| `HeaderLines.NameFed` | app/libwebsockets-master/lib/parsers.c:468-521 | Nothing happens before the last character of a name, which starts its fragment |
| `HeaderLines.ValueFed` | app/libwebsockets-master/lib/parsers.c:430-463 | A value is stored up to its carriage return, without the spaces the parser swallows, exactly when the arena has room for it and its terminator |
| `HeaderLines.LineFed` | app/libwebsockets-master/lib/parsers.c:407-575 | A whole header line adds one fragment, or the parse reports an error exactly when fragments or arena run out or a second request line comes |
| `HeaderLines.LostIsForeign` | app/libwebsockets-master/lib/parsers.c:293-307 | A walk through the table is lost inside a text exactly when no name is a beginning of the text or the text of a name |
| `HeaderLines.UnknownFed` | app/libwebsockets-master/lib/parsers.c:474-489 | A line whose name is not in the table is skipped once the request line has been seen, and refused before |
| `HeaderLines.StubFed` | app/libwebsockets-master/lib/parsers.c:474-489 | A line that ends inside a name of the table is skipped together with the line behind it |
| `HeaderLines.RequestFed` | app/libwebsockets-master/lib/parsers.c:407-575 | Any run of header lines, with names of the table and others, is refused exactly when a line does not fit or is not allowed where it stands, and otherwise leaves one fragment for each line with a name of the table |
| `HeaderLines.EndFed` | app/libwebsockets-master/lib/parsers.c:508-521 | The empty line completes the headers |
| `HeaderLines.ValueIsMerged` | app/libwebsockets-master/lib/parsers.c:523-555 | The fragments of a token spell its first value and, for each later line of the name, one space and that value |
| `HeaderLines.RestIs` | app/libwebsockets-master/lib/parsers.c:430-445 | The stored form of a value in plain terms: the URI up to a space, a first value without leading spaces, a later one raw, or without any space when the first was blank |
| `HeaderLines.MergedIs` | app/libwebsockets-master/lib/parsers.c:430-555 | When the first value is not blank the result is it without leading spaces, then one space and the raw value for each later line |
| `HeaderLines.MergedBlank` | app/libwebsockets-master/lib/parsers.c:430-555 | When it is blank the result is one space and the value without any of its spaces for each later line |
| `HeaderLines.MergedRight` | app/libwebsockets-master/lib/parsers.c:430-555 | So the value is the promised one exactly when the first value is not blank or no later one holds a space |
| `HeaderStore.RangesDisjoint` | app/libwebsockets-master/lib/parsers.c:523-536 | Different fragments lie in disjoint ranges of the arena, terminators included, in the order of their indexes |
| `HeaderStore.ChainsRise` | app/libwebsockets-master/lib/parsers.c:538-546 | Every link of a chain leads strictly upwards, so that walking a chain ends |
| `HeaderStore.LinksMore` | app/libwebsockets-master/lib/parsers.c:538-546 | Linking a new fragment behind the last one of its token keeps all chains and slots right |
| `HeaderStore.TextsLonger` | app/libwebsockets-master/lib/parsers.c:447-457 | Storing a character at pos extends the last fragment and leaves all others and their terminators in place |
| `HeaderParser.Table.constructor` | app/libwebsockets-master/lib/parsers.c:310-322 | A new table is empty |
| `HeaderParser.Table.LastOf` | app/libwebsockets-master/lib/parsers.c:542-546 | The walk reaches the last fragment of the token |
| `HeaderParser.Table.Start` | app/libwebsockets-master/lib/parsers.c:523-557 | A fragment is started, linked and given its separating space, or the overflow reported |
| `HeaderParser.Table.ParseValue` | app/libwebsockets-master/lib/parsers.c:428-464 | A value character does its step on the arena |
| `HeaderParser.Table.ParseName` | app/libwebsockets-master/lib/parsers.c:468-521 | A name character does its step on the table |
| `HeaderParser.Table.Parse` | app/libwebsockets-master/lib/parsers.c:407-580 | One character does its step; refused exactly when the step is |
| `HeaderParser.Table.TotalLength` | app/libwebsockets-master/lib/parsers.c:324-339 | The sum along the chain is the length of the token value |
| `HeaderParser.Table.Copy` | app/libwebsockets-master/lib/parsers.c:341-362 | For values without NUL the destination receives the token value and a terminator, and nothing behind it changes; -1 exactly when it is too small, 0 and no change without a value |
| `HeaderRequest.RequestValue` | app/libwebsockets-master/lib/parsers.c:324-600 | From compiling the names through parsing any header lines, whether their names are in the table or not, to copying: the parse fails exactly on overflow, a second request line or another line before the first, and otherwise the copied value is the merged value of the lines for the token |
| `HeaderRequest.ReadValue` | app/libwebsockets-master/lib/parsers.c:324-600 | The same for any table that recognises the names |
| `ShippedBytes.TableClosed` | app/libwebsockets-master/lib/parsers.c:29-291 | Every option of the table in this file stays inside it, and every marker holds the index of a name |
| `ShippedTable.ShippedRecognises` | app/libwebsockets-master/lib/parsers.c:29-291 | The table in this file, all 276 bytes, recognises exactly the 17 header names, each with its own index |
| `ShippedTable.ShippedValue` | app/libwebsockets-master/lib/parsers.c:29-600 | With this table, too, the copied value is the merged value of the lines for the token, and the parse fails exactly when a line is not taken |
| `HeaderLines.StripIs` | app/libwebsockets-master/lib/parsers.c:430-445 | Only the spaces in front are stripped |
| `HeaderLines.ToSpaceIs` | app/libwebsockets-master/lib/parsers.c:430-445 | The URI is what stands before its first space |
| `HeaderSet.RepositoryNames` | app/libwebsockets-master/lib/minilex.c:5-27 | The set of names in the repository is prefix-free and 7-bit and meets the sizes of the compiler and what the header parser needs; the request line, Origin, Sec-WebSocket-Origin, the empty line and the status line stand where their tokens say |
| `RxLoop.CallbackKeeps` | app/libwebsockets-master/lib/libwebsockets.c:1698-1711 | The invariant — no stash while POLLIN is armed, and without a stash POLLIN is what the user wants — survives a user callback exactly when the callback returns 0, asks for no change or a stash exists |
| `RxLoop.StepAgrees` | app/libwebsockets-master/lib/parsers.c:619-1044 | What the callback or a failing write returns changes neither what is shown nor the state behind an accepted byte |
| `RxLoop.LoopKeeps` | app/libwebsockets-master/lib/parsers.c:1047-1094 | With callbacks that return 0 or do not call flow control the byte loop keeps the invariant, also with the stash it makes |
| `RxLoop.LoopStashes` | app/libwebsockets-master/lib/parsers.c:1047-1094 | On a running connection bytes are stashed exactly when a callback other than that of the last byte pauses, and POLLIN stays armed beside them exactly when the first such callback does not return 0 |
| `RxLoop.LoopKeepsOpen` | app/libwebsockets-master/lib/parsers.c:1047-1094 | While callbacks and writes do not fail, only a byte that the machine refuses ends the connection |
| `RxLoop.LoopTakesAll` | app/libwebsockets-master/lib/parsers.c:1047-1094 | A stream that the machine accepts goes in completely when nobody pauses |
| `RxFlow.Flow.FeedByte` | app/libwebsockets-master/lib/parsers.c:1080-1089 | A byte goes into the receive machine, is accounted for in the stash, and the callback changes the flow state only when data is shown |
| `RxFlow.Flow.Interpret` | app/libwebsockets-master/lib/parsers.c:1047-1094 | The loop ends with the state, the return value, the fed bytes and the stash of the loop on values |
| `RxFlow.Flow.RxFlowControl` | app/libwebsockets-master/lib/libwebsockets.c:1603-1613 | A change of the flow state is recorded as pending, an unchanged one is not |
| `RxFlow.Flow.Apply` | app/libwebsockets-master/lib/libwebsockets.c:1547-1588 | A pending change sets POLLIN only when no stash is left, and otherwise asks for a writable event |
| `RxFlow.Flow.Callback` | app/libwebsockets-master/lib/libwebsockets.c:1698-1711 | The flow control calls of a callback take effect one after the other, and are applied when it returns 0 |
| `RxFlow.Flow.Drain` | app/libwebsockets-master/lib/libwebsockets.c:1026-1036 | A drain feeds the stash until it is empty, and then rearms POLLIN, or until reception is paused again |
| `RxLoop.ResumeDrains` | app/libwebsockets-master/lib/libwebsockets.c:1014-1036 | With a stash, a writable callback whose last flow call enables lets the whole stash into the machine, removes it and arms POLLIN, when nobody pauses and the bytes are accepted |
| `RxLoop.ResumeAsks` | app/libwebsockets-master/lib/libwebsockets.c:1547-1588 | A resume in any other callback, beside a stash, keeps POLLIN off and asks for a writable event |
| `RxLoop.WritableSets` | app/libwebsockets-master/lib/libwebsockets.c:1014-1036 | Without a stash a kept writable callback leaves reception and POLLIN as its last flow call asks, or as they were |
| `RxLoop.ArrivalFeeds` | app/libwebsockets-master/lib/libwebsockets.c:1047-1133 | Bytes that arrive while reception is on go in completely and leave no stash, when nobody pauses |
| `RxLoop.PauseHolds` | app/libwebsockets-master/lib/libwebsockets.c:1014-1036 | While reception stays paused the stash is untouched, nothing is fed and POLLIN is not armed |
| `RxLoop.ServiceKeeps` | app/libwebsockets-master/lib/libwebsockets.c:1014-1133 | A service with kept callbacks keeps the invariant, loses no byte, and ends the connection only with a byte the machine refuses or a callback that asks for it |
| `RxFlow.Flow.Service` | app/libwebsockets-master/lib/libwebsockets.c:1014-1133 | A service of an open connection ends in exactly the state, stash and fed bytes that its callbacks, the stash and the arrived bytes determine; a resume drains the stash and arms POLLIN; the bytes fed followed by the unread stash are the bytes received, what has been shown is what the machine shows for the bytes fed, and afterwards a stash exists only while paused |
| `RxFlow.Run` | app/libwebsockets-master/lib/libwebsockets.c:1014-1133 | Over every run of arrivals, pauses, resumes and partial drains the bytes fed and the unread stash are the bytes read from the stream, and while POLLIN is armed all of them have been fed; when from some turn on the turns resume, never pause and cover the rest, the whole stream has been fed |
| `RxFlow.Deliver` | app/libwebsockets-master/lib/libwebsockets.c:1014-1133 | Whatever pauses, resumes and partial drains happen, a stream of frames with data is shown in the pieces of all its frames, in order, and completely when the last turns resume, never pause and cover the rest |
| `RxFlow.Arrive` | app/libwebsockets-master/lib/libwebsockets.c:1014-1133 | After bytes have arrived at a running connection a stash stands beside an armed POLLIN exactly when the first callback that pauses is not that of the last byte and does not return 0 |
| `RxFlow.ArriveTwice` | app/libwebsockets-master/lib/libwebsockets.c:1014-1133 | Then the bytes that arrive next are read from the socket and lost |
| `PollTable.Context.Insert` | app/libwebsockets-master/lib/libwebsockets.c:100-132 | A connection gets the next slot with POLLIN, or 1 is returned and nothing happens when the table is full or the descriptor too high; no other connection changes |
| `PollTable.Context.Remove` | app/libwebsockets-master/lib/libwebsockets.c:135-177 | The last entry takes the vacant slot; every other connection keeps its event mask and every one not moved its position; the look-up slot is cleared except when the table becomes empty |
| `PollTable.Context.OnWritable` | app/libwebsockets-master/lib/libwebsockets.c:1391-1427 | POLLOUT is added for the connection at the position of the one that asks, which is this one if it is live, and nobody else |
| `PollTable.Context.Descriptors` | app/libwebsockets-master/lib/libwebsockets.c:100-177 | The descriptors below fds_count are distinct and each belongs to a live connection that knows its position |
| `PollTable.Context.LiveHaveDescriptors` | app/libwebsockets-master/lib/libwebsockets.c:100-177 | Every live connection is found by its descriptor, at its position |

## Left out

- AesTables.GenTables: the tables are returned as a value that a context keeps, not as global arrays guarded by a first-call flag.
- AesModes.CryptCbc: the iv is an array of its own; input and output are the same array or do not overlap, and the same holds for the other modes.
- AesModes.CryptCfb8: only the two mode constants; with another value the code would shift in an uninitialised byte.
- Crc32Fast.Crc32Little: the alignment prefix is driven by an address parameter; the unrolled macros DO8 and DOLIT32 are counted loops, and so are DOBIG32 and Adler's DO16.
- Sha1Lib.Sha1Ctxt.LoadWords: the 32-bit view of the block is a separate array of 16 words, filled from the swapped bytes; only the little-endian branch is modelled.
- Sha1App.SHA1Context.Result: the digest words are a record of five words.
- Adler32Code.CombineChecksums: checksums with a half of BASE or more, which adler32 does not return from a reduced start, and negative lengths, which are no lengths of a buffer.
- MinilexTool.Compile: compilation of names that are not prefix-free or do not fit the fixed arrays is not modelled; the arrays of options are one sequence per state, and the printed comments are left out.
- WsServerConn.ServerConn.RxSm: the result of the user callback and of writing a pong are parameters, and the pong itself is an event; the states of the older draft 04 nonce, which nothing enters, are left out, and only protocol version 13 is modelled.
- WsClientConn.ClientConn.RxSm: after the echo of a CLOSE the data left in the buffer is not specified, because the echo is masked where it lies and the connection is given up.
- WsSend.Writer.Write: sends are accepted in full, so that a write never continues inside a frame; payloads of 2^63 bytes or more are excluded, and on a client those of 2^31 - 4 bytes or more, for which the int that the masking loop counts with overflows. LWS_WRITE_CLIENT_IGNORE_XOR_MASK is not read by this code.
- WsStep.Step: states Len64(k) and KeyByte(j) stand for the eight and four numbered states of the source.
- HeaderParser.Table.Parse: reading the protocol version number with atoi when the headers end.
- HeaderParser.Table.Copy: NUL characters inside header values, which would end the copied string early.
- HeaderRequest.ReadValue: lines whose text is a proper beginning of a name of the table, which swallow the next line as `HeaderLines.StubFed` says, and NUL characters.
- RxFlow.Flow.Service: a callback that calls flow control, for its own connection only, returns 0 or an error that ends the connection, as the code needs; extensions and SSL are left out, and a connection that is closed only stops.
- PollTable.Context.Insert: descriptors equal to max_fds, which the comparison lets through and the operating system does not hand out.
- AES-CTR, the ROM tables other than the S-box, AES-NI and PadLock branches and the self-tests: not enabled or hardware.
- Extensions and deflate, gzip files, base64, serial port, user interface, MySQL and browser add-on: they depend on code or devices that are not part of this model.
- Sockets, poll, SSL, timers and logging: their results are parameters.
- lws_hdr_simple_create and lws_hdr_simple_ptr: used by the client handshake only.
