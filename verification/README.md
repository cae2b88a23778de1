# Verified models of the parser, symbol, cipher and list code

Five parts of the repository that transform data, each modelled in the form the C code has
and proved against a specification of its own:

- **the streaming HTTP parser** of `common/http_parser.c`: a machine that takes one byte at a
  time, is called with input cut anywhere, and reports what it read through callbacks;
- **the QR encoder** of `qrcode/`: from entries of data over the bit stream, padding, version
  search, structured append, Reed-Solomon blocks and interleaving to the modules of the symbol;
- **the Reed-Solomon coder** of `qrcode/rsecc.c` and the distance of the code it computes;
- **two implementations of AES**, the table-driven one of `common/crypto/polaraes.c` with its
  CBC, CFB128 and CTR modes and the one of `common/crypto/aeslib.c` that works in place;
- **the doubly linked list** of `common/re_list.c` and its sort.

## How the files hang together

| files | content |
|---|---|
| `Common.dfy`, `Products.dfy`, `Orbit.dfy` | options, distinctness, products without multiplication, powers of a step on bytes |
| `HttpTypes.dfy`, `HttpSwitch.dfy` | the record, character classes and the switch: what one byte does in each state |
| `HttpInvariant.dfy`, `HttpRun.dfy` | what every reachable record satisfies, and that every state handler keeps it |
| `HttpSpec.dfy` | the reference run: one byte after another, callbacks with adjacent data joined |
| `HttpSize.dfy`, `HttpSync.dfy`, `HttpExecute.dfy` | the bytes that count against the limit of a head; the parser object: a call that holds marks into its buffer and takes whole stretches at once refines the reference run |
| `HttpFragment.dfy` | cutting the input into calls: exactly when it does not matter |
| `HttpBody.dfy`, `HttpHex.dfy`, `HttpTrailer.dfy`, `HttpLength.dfy` | body framing: chunks and their sizes, trailers, Content-Length, up to the bytes the application is handed |
| `HttpNames.dfy`, `HttpHeaders.dfy`, `HttpCoding.dfy`, `HttpHead.dfy`, `HttpFraming.dfy` | method and header names, the value of Transfer-Encoding, what any head does to the record, whole messages whose framing header stands anywhere in the head |
| `HttpErrors.dfy`, `HttpUrl.dfy`, `HttpStart.dfy`, `HttpStatus.dfy` | which byte is refused where and with which error; the URL, the request line and the status line: from their bytes to the record and the data handed over |
| `HttpConnection.dfy`, `HttpFields.dfy` | the words of Connection; any list of header fields: the flags and the length it leaves, the names and values it hands over |
| `HttpMessages.dfy`, `HttpResponses.dfy`, `HttpHeadSize.dfy` | whole requests and responses from the first byte to the last, and what follows them; the size of their heads |
| `Gf256.dfy`, `RsCode.dfy`, `Rsecc.dfy` | the field, the code and its distance, the encoder with its tables |
| `QrBits.dfy`, `QrEntry.dfy`, `QrReader.dfy` | the bit buffer, the segments of a bit stream, a reader that takes them apart |
| `QrCapacity.dfy`, `QrSpec.dfy`, `QrPadding.dfy`, `QrInput.dfy`, `QrPacking.dfy`, `QrSplit.dfy` | capacities and block structures, terminator and padding, from entries to padded bytes, ways to pack entries in symbols, structured append |
| `QrRaw.dfy`, `QrPath.dfy`, `QrFill.dfy`, `QrFrame.dfy` | interleaving, the zigzag path, placement in the frame, reading it back |
| `QrPattern.dfy`, `QrDraw.dfy`, `QrMask.dfy`, `QrBch.dfy` | which modules are drawn and how many are left, drawing the frame, masks and format information, the code words in the tables of format and version |
| `QrRuns.dfy`, `QrDemerits.dfy`, `QrChoice.dfy`, `QrSymbol.dfy` | runs of one colour, the demerits of a line and of a symbol, the choice of the mask, the whole way from entries to the symbol and back |
| `Aes.dfy`, `AesField.dfy`, `AesModes.dfy` | the cipher and its two inverse forms, the S-box from inverses in the field, the modes |
| `AesStandard.dfy`, `AesAnswers.dfy`, `AesStreams.dfy` | the key expansion and the rounds byte by byte, the examples of FIPS-197, the modes block by block |
| `PolarTables.dfy`, `PolarAes.dfy`, `PolarModes.dfy` | polaraes.c: generated tables, key schedules, rounds, buffers |
| `AesBoxes.dfy`, `AesLib.dfy` | aeslib.c: its tables against FIPS-197, the 4x4 state in place, key expansion, CBC |
| `ListOrder.dfy`, `ReList.dfy` | what the sort does to an order, and the linked nodes themselves |

A predicate that occurs in many contracts with a large record as argument is written as a
function into a small datatype (`EffectOf`, `Meaning`, `DemandOf`): the verifier does not
unfold those at every use, which keeps its memory small.

## Findings

Properties the documentation of the code, or the standard it follows, promises and the code does
not have. Each has a
lemma with an input, or a lemma that says exactly when the property holds.

- **Hidden header bytes.** A byte that may not stand in a header is rejected by the HTTP parser
  only where `memchr` does not jump over it (`common/http_parser.c:1460-1490`): "A:aa" and
  the byte 1 are accepted in one call and rejected when the last byte comes in a call of its
  own. `HttpFragment.FragmentationTheorem` says that cutting the input changes nothing exactly if
  no byte is hidden in this way; `HttpFragment.HiddenRequest` is a whole request with one.
- **Chunk sizes with bytes from 128 on.** The table `unhex` of `common/http_parser.c:220-237`
  writes out 128 of its 256 entries, so every byte from 128 on reads as the digit 0.
  `HttpHex.SizeFieldExact`: a size field the parser takes is hexadecimal as section 3.6.1 of
  RFC 2616 has it, and read as its number, exactly if none of its bytes is 128 or above;
  `HttpHex.HighByteExample`: the line of the byte 128 alone is read as that of the last chunk.
- **Kanji trail bytes below 0x40.** `QRinput_checkModeKanji` looks only at the two bytes as one
  number, so a pair such as 0x82 0x00 is taken, and what is encoded for it is another
  character, 0x82 0x40 (`QrReader.KanjiExample`). `QrReader.KanjiExact` and `QrReader.RereadExact`:
  data comes back unchanged exactly if no trail byte is below 0x40.
- **A sort handler that is not total.** `list_sort` comes to an end for every list exactly if, of
  any two values, the handler accepts one order or the other (`ListOrder.SettlesExactly`).

- **Words of Connection that are not seen.** The parser looks for "close", "keep-alive" and
  "upgrade" at the beginning of each element of a Connection value, but not after a first
  element that is empty or an element that breaks off inside one of these words, whose comma
  it takes for a part of it, and not at all after a later element that is empty or begins with
  no token (`common/http_parser.c:1541-1618`); section 2.1 of RFC 2616 allows empty elements.
  `HttpConnection.ConnectionExact` says for every value which words are seen,
  `HttpConnection.AllLooked` that every element is looked at exactly if each but the last is
  plain, and `HttpConnection.CommaFirst` that "," followed by any one word hides that word.
- **Empty lines before a response.** A parser of responses calls on_message_begin for every
  CR and LF before the status line (`common/http_parser.c:756-777`), a parser of requests for
  none. `HttpStatus.BlankResponse`: once for each such byte, and `HttpStatus.StatusLine` once more,
  so the message begins once exactly if there is none.

## Model

| member | source | states |
|---|---|---|
| HttpRun.SwitchLeads | common/http_parser.c:706-2013 | in every valid record, every byte leads to an error or to a valid record again: the assertions on header states, indices, lengths and nread hold, no two marks are set at once and no callback fires while data is pending |
| HttpExecute.HttpParser.Execute | common/http_parser.c:632-2046 | one call over a buffer, with marks, `memchr` and whole stretches of body, does what the byte-by-byte reference run does: same record, error, position and joined callbacks; it ends with HEADER_OVERFLOW only if some beginning of the data is as long as a head may be, and otherwise the counter, at most 80 KiB, is the number of bytes that count, and one more at most if the data ends inside a name or value; calls after an error and the call at the end of the input |
| HttpExecute.HttpParser.constructor | common/http_parser.c:2100-2108 | a fresh parser is ready and in the initial record of its type |
| HttpHeadSize.RequestCounted | common/http_parser.c:136-157 | every byte of a request line and of its fields counts, so no head of more than 80 KiB is read |
| HttpHeadSize.ResponseCounted | common/http_parser.c:136-157 | the same of a response |
| HttpErrors.RulingExact | common/http_parser.c:706-2013 | in every state of a start line, a header name, a line end and the line of a chunk: exactly which bytes are refused, and with which error |
| HttpUrl.UrlExact | common/http_parser.c:485-628 | after a method, the bytes up to the next space or line end are taken exactly if they are a URL: for CONNECT a host, else a path, "*" or scheme, "://" and host, with no "@@", and only printable ASCII after it; they are handed over without the byte that ends them |
| HttpStart.RequestLine | common/http_parser.c:918-1178 | for every method, URL and version, with any spaces between them, read by a fresh parser of requests or of both: the record has the method and the two digits, the callbacks are the begin of the message and exactly the bytes of the URL |
| HttpStart.RequestLineDelivered | common/http_parser.c:918-1178 | the same however the line is cut into calls |
| HttpStart.SimpleLine | common/http_parser.c:1069-1076 | a line that ends after its URL is one of HTTP/0.9 |
| HttpStatus.StatusLine | common/http_parser.c:756-916 | a status line is read exactly if its code is at most 999: the record has the digits of the version and the number of the code, and the reason, or nothing, is handed over |
| HttpStatus.StatusLineDelivered | common/http_parser.c:756-916 | the same however the line is cut into calls |
| HttpStatus.BlankResponse | common/http_parser.c:756-777 | each empty line byte before a response fires a message begin of its own |
| HttpFragment.FragmentationTheorem | common/http_parser.c:1439-1490 | for any record and input: every way of cutting the input into calls has the meaning of a single call, if and only if no illegal byte is hidden by memchr |
| HttpFragment.HiddenRequest | common/http_parser.c:1460-1490 | a request, read by a fresh parser, with a hidden byte, so that by the theorem its cuts matter |
| HttpFragment.HiddenExample | common/http_parser.c:1460-1490 | in any header value of no interest two bytes are taken by one call and rejected by two |
| HttpFragment.ExecuteAll | common/http_parser.c:632-2046 | calling the parser object on any cut of an input without hidden bytes ends as one call on all of it; short heads never overflow the counter |
| HttpFragment.LegalIsNotHidden | common/http_parser.c:440-443 | nothing is hidden where every byte may stand in a header, or the parser is lenient |
| HttpBody.HexAccepted | common/http_parser.c:1889-1940 | a chunk size of any length, of bytes the table takes for digits, is read as its value by the table exactly if that is at most 2^64 - 17, and is INVALID_CONTENT_LENGTH above: the accumulation never wraps |
| HttpHex.UnhexExact | common/http_parser.c:220-237 | the table takes exactly the hexadecimal digits and all bytes from 128 on |
| HttpHex.SizeFieldExact | common/http_parser.c:1889-1940 | for every byte sequence as a size field: one the parser takes is hexadecimal and read as its hexadecimal number if and only if no byte of it is 128 or above; one it refuses is not hexadecimal or above 2^64 - 17 |
| HttpHex.HighByteExample | common/http_parser.c:220-237 | the size line 0x80 CR LF is read as that of the last chunk |
| HttpLength.LengthDigitExact | common/http_parser.c:1503-1533 | the test on the old value decides for the new one: a digit is taken exactly if ten times the length plus the digit is at most 2^64 - 7 |
| HttpLength.LengthAccepted | common/http_parser.c:1397-1412 | a decimal Content-Length of any length is read as its value exactly if that is at most 2^64 - 7, and is INVALID_CONTENT_LENGTH above |
| HttpBody.IdentityDelivery | common/http_parser.c:1837-1872 | a body with a length, cut anywhere, is delivered as exactly its bytes |
| HttpTrailer.ChunkedDelivery | common/http_parser.c:1889-2013 | any list of chunks with extensions and any trailer, cut anywhere: the body callbacks carry exactly the data of the chunks and one message is completed |
| HttpTrailer.TrailerQuiet | common/http_parser.c:1180-1720 | the fields of a trailer hand over no body, complete no message and leave the parser in the trailer |
| HttpBody.AcceptedIsNotHidden | common/http_parser.c:1439-1490 | what is accepted byte by byte, or refused for another reason than a byte of a header, hides nothing |
| HttpNames.MethodExact | common/http_parser.c:918-1012 | a request begins with one of the 34 method names and a space, and the verb is that method; any other word before the first space is an error |
| HttpHeaders.HeaderNameExact | common/http_parser.c:1180-1346 | after any header name and its colon, the header state is that of Connection, Content-Length, Transfer-Encoding or Upgrade exactly if the name is that (or Proxy-Connection), in any mixture of cases |
| HttpHeaders.BytesExact | common/http_parser.c:185-218 | the table of tokens is that of RFC 2616 in lower case, letters match in either case, headers hold anything but control characters |
| HttpConnection.ConnectionExact | common/http_parser.c:1413-1618 | any value of Connection sets the flags of exactly those words that are an element of it where the parser looks for one, and leaves nothing else |
| HttpConnection.AllLooked | common/http_parser.c:1553-1606 | every element is looked at if and only if each but the last is no beginning of a word and, after the first, begins as a token does |
| HttpConnection.WordsSeen | common/http_parser.c:1553-1606 | then a word is seen exactly if it is one of the elements |
| HttpConnection.CommaFirst | common/http_parser.c:1413-1426 | a word after a comma at the beginning of the value is not seen |
| HttpFields.HeadReads | common/http_parser.c:1180-1720 | any list of fields, of any names and values or none: every name and value is handed over as it is, and the record differs in the flags and the length alone, as the fields say |
| HttpFields.LfAlone | common/http_parser.c:1187-1192 | the empty line may be LF alone: whatever follows is read the same |
| HttpFields.FoldExact | common/http_parser.c:1655-1662 | a value goes on in a line that begins with a space or a tab; the word matched so far is forgotten and sets no flag |
| HttpFields.FoldedLine | common/http_parser.c:1644-1662 | the bytes of that line, the space among them, are handed over as a part of the value |
| HttpFields.ListFlags | common/http_parser.c:1655-1720 | each flag is set exactly if one of the fields says so: chunked, keep-alive, close, upgrade, a length |
| HttpFields.ListLength | common/http_parser.c:1397-1412 | the length is that of the one field that gives it |
| HttpMessages.RequestWithoutBody | common/http_parser.c:1722-1835 | a whole request from its bytes, cut anywhere, where no body follows or none is wanted: the callbacks in order, whether the protocol changes, and whether another request may follow, by the version and the words close and keep-alive |
| HttpMessages.RequestWithLength | common/http_parser.c:1722-1887 | a whole request with a length and so many bytes |
| HttpMessages.RequestWithChunks | common/http_parser.c:1722-2013 | a whole chunked request: sizes, data and trailer fields are handed over, and the trailer has its say about the connection |
| HttpResponses.ResponseWithoutBody | common/http_parser.c:1722-1835 | a whole response without a body, also by its status: 1xx, 204 and 304; after 101 with an upgrade the protocol changes |
| HttpResponses.ResponseWithLength | common/http_parser.c:1722-1887 | a whole response with a length |
| HttpResponses.ResponseWithChunks | common/http_parser.c:1722-2013 | a whole chunked response |
| HttpResponses.ResponseUntilClose | common/http_parser.c:2050-2095 | a response with a body that nothing ends: every byte is body, and the message is not complete |
| HttpCoding.CodingExact | common/http_parser.c:1389-1548 | after any value of Transfer-Encoding, the header state says chunked exactly if the value is "chunked" in any mixture of cases, and spaces |
| HttpHead.PrefixMoves | common/http_parser.c:1180-1720 | within any head, flags are only added, nothing but the traces of the headers changes, and a length read to its end stays |
| HttpFraming.LengthKept | common/http_parser.c:1180-1720 | a Content-Length field in any mixture of cases, anywhere in a head that is read to its end: the length of the message is its number |
| HttpFraming.OneLength | common/http_parser.c:1397-1412 | a head that is read to its end has no second length field after one |
| HttpFraming.ChunkedKept | common/http_parser.c:1180-1720 | a Transfer-Encoding field that says "chunked", anywhere in a head that is read to its end: the message is chunked |
| HttpFraming.BothRefused | common/http_parser.c:1180-1739 | a message whose head has both fields, anywhere in it and in either order, cut anywhere, fails with UNEXPECTED_CONTENT_LENGTH at the last byte of the head |
| HttpFraming.LengthMessage | common/http_parser.c:1180-1887 | a head with a Content-Length field anywhere in it and so many bytes, cut anywhere: exactly those bytes are delivered as the body and one message is completed |
| HttpFraming.ChunkedMessage | common/http_parser.c:1180-2013 | a head with a Transfer-Encoding: chunked field anywhere in it, any chunks and any trailer, cut anywhere: exactly the data of the chunks is delivered and one message is completed |
| HttpFraming.HeadMessage | common/http_parser.c:1722-1835 | where the method is CONNECT, the application wants no body or the head announces none, the message is complete at the end of the head, and the call ends there exactly if the connection is upgraded |
| RsCode.MinimumDistance | qrcode/rsecc.c:83-145 | two different code words of the same length up to 255 differ in more than n places: n errors are always detected |
| RsCode.UniqueDecoding | qrcode/rsecc.c:83-145 | no word is within half the check symbols of two different code words |
| RsCode.GeneratorOfSeven | qrcode/rsecc.c:83-103 | the generator polynomial for seven check symbols is that of annex A of ISO/IEC 18004 |
| RsCode.ChecksUnique | qrcode/rsecc.c:105-145 | the data has only one sequence of check symbols |
| Rsecc.Encoder.Encode | qrcode/rsecc.c:105-145 | the data and the check symbols written behind it are a code word; nothing else in the buffer changes; lengths above 30 are refused |
| Rsecc.Encoder.GeneratorInit | qrcode/rsecc.c:83-103 | the stored logarithms are those of the generator polynomial of that degree; no other row changes |
| Gf256.AlphaGenerates | qrcode/rsecc.c:57-74 | the byte 2 generates the field: its first power equal to 1 is the 255th, which is what the two tables rest on |
| QrBits.BitStream.AppendNum | qrcode/bitstream.c:75-166 | appends the bits of the number, most significant first, to a buffer that grows as needed |
| QrBits.BitStream.ToByte | qrcode/bitstream.c:184-223 | the bytes of the stream, the last one holding the remaining bits |
| QrReader.Decodes | qrcode/qrinput.c:1006-1071 | the segments of any proper entries, cut into pieces where too long, are read back as exactly those pieces, whose data is that of the entries |
| QrReader.WidthsExact | qrcode/qrspec.c:135-156 | for all 40 versions the widths of the count indicator are the twelve of table 3 of ISO/IEC 18004; the reader has its own |
| QrReader.AnExact | qrcode/qrinput.c:459-468 | the 45 characters of the alphanumeric mode, in the order of table 5 of ISO/IEC 18004, and no others |
| QrReader.KanjiExact | qrcode/qrinput.c:655-699 | the 13 bits of a Kanji pair give the pair back if and only if its second byte is at least 0x40 |
| QrReader.RereadExact | qrcode/qrinput.c:627-699 | Kanji data as a whole comes back unchanged if and only if no trail byte is below 0x40 |
| QrReader.KanjiExample | qrcode/qrinput.c:627-645 | the pair 0x82 0x00 is taken and comes back as 0x82 0x40 |
| QrInput.Input.ConvertData | qrcode/qrinput.c:1101-1134 | the version only rises, the bits are those of the final version, and they fit the version they ask for |
| QrInput.Input.GetByteStream | qrcode/qrinput.c:1292-1336 | succeeds exactly if the bits fit the final version; then the bytes, as many as the version holds, are the stream, at most four zeros, the zeros up to the byte boundary and no more, and 0xec and 0x11 in turn; fails only at version 40 |
| QrPadding.PaddingIs | qrcode/qrinput.c:1136-1183 | the padding the source appends is that one, stated from the bits and bytes |
| QrInput.StreamDecodes | qrcode/qrinput.c:1136-1183 | the padded bytes are read back to the data that was given: terminator and padding cannot be mistaken for a segment |
| QrSplit.Adjoint | qrcode/qrinput.c:954-994 | the length computed for a number of bits is the largest whose segment fits in them |
| QrSplit.SplitToStruct | qrcode/qrinput.c:1474-1577 | the symbols carry all the data in order, with the parity of all of it, and each fits its version; without Kanji they are as few as any way to cut the entries up and pack them needs, and the split fails exactly if no way gets by with 16 or if no version is set |
| QrPacking.StaysAhead | qrcode/qrinput.c:1474-1557 | filling each symbol as far as it goes never falls behind another way of packing: with as many symbols, no other has put away more data |
| QrSplit.SymbolFits | qrcode/qrinput.c:248-274 | each symbol still fits with its structured-append header |
| QrSplit.InsertHeaders | qrcode/qrinput.c:1579-1605 | every symbol gets a header with its number, the total and the parity |
| QrSplit.ParityBits | qrcode/qrinput.c:309-326 | each bit of the parity tells whether it is set in an odd number of bytes of the data |
| QrSpec.EccSpecExact | qrcode/qrspec.c:234-257 | for all 40 versions and 4 levels the blocks of the table hold exactly the codewords of the capacity table, with a number of check symbols the coder takes |
| QrCapacity.GetMinimumVersion | qrcode/qrspec.c:108-119 | the least version that holds so many bytes, or 40 |
| QrRaw.Deinterleave | qrcode/qrencode.c:157-178 | every codeword of every block is found at its place in the interleaved order of section 6.6 of ISO/IEC 18004 |
| QrRaw.RawCode.GetCode | qrcode/qrencode.c:157-178 | successive calls yield the interleaved sequence, then zeros |
| QrFill.PlacementExact | qrcode/qrencode.c:266-351 | the zigzag visits every unreserved module exactly once if and only if the corner is free and every module off its path is reserved |
| QrFill.InOrder | qrcode/qrencode.c:298-351 | in the order of section 8.7.3 of ISO/IEC 18004: pairs of columns from the right, skipping column 6, upwards and downwards in turn, right before left |
| QrFill.FrameFiller.Next | qrcode/qrencode.c:298-351 | yields the next unreserved module of the path, and -1 at its end |
| QrFrame.EncodeMask | qrcode/qrencode.c:431-501 | from data to frame: every block read back from the finished modules is its data followed by check symbols, a code word; all other modules are untouched; fails exactly if the frame has too few free modules |
| QrFrame.BitOrder | qrcode/qrencode.c:463-494 | bit 0 of a codeword is its most significant one |
| QrPattern.SpacingExact | qrcode/qrspec.c:269-293 | for all versions from 7 on the alignment patterns are spaced as annex E of ISO/IEC 18004 has it |
| QrPattern.FreeCount | qrcode/qrspec.c:54-96 | for all 40 versions, the modules that no pattern covers are exactly 8 for each codeword of the capacity table and the remainder bits |
| QrDraw.CreateFrame | qrcode/qrspec.c:426-507 | every module of the drawn frame is that of the pattern: finders, separators, timing, alignment, version information, dark module |
| QrDraw.PatternKept | qrcode/qrspec.c:426-507 | exactly the modules that belong to a pattern carry the flag that reserves them |
| QrSymbol.BlankSuitable | qrcode/qrencode.c:266-351 | every drawn frame meets the condition of PlacementExact |
| QrSymbol.BlankCells | qrcode/qrencode.c:463-494 | so the filler finds exactly the modules the codewords and the remainder need, in every version |
| QrMask.MaskUndone | qrcode/mask.c:86-142 | masking twice is nothing and reserves nothing |
| QrMask.MaskPicture | qrcode/mask.c:103-141 | the formula of each mask turns over exactly the columns, modulo 6, that the picture of section 8.8.1 of ISO/IEC 18004 has for each row |
| QrMask.MakeMasked | qrcode/mask.c:86-142 | in every module of the output: turned over if it is not reserved and in the picture of the mask, and else as it was; the dark ones are counted |
| QrMask.CountExact | qrcode/mask.c:341-342 | on a frame whose format area is reserved and light, that count and the one of the format writer add up to the dark modules of the finished symbol |
| QrRuns.RunsExact | qrcode/mask.c:244-298 | the run lengths of a row or column, laid side by side, are the row or column again |
| QrRuns.RunsUnique | qrcode/mask.c:244-298 | and no other list of alternating runs gives it |
| QrRuns.CalcRunLength | qrcode/mask.c:244-298 | the array receives the run lengths of that row or column |
| QrChoice.CalcN2 | qrcode/mask.c:221-242 | three for each block of two by two modules of one colour |
| QrDemerits.DemeritsExact | qrcode/mask.c:188-219 | what is added up for the runs of a row or column is what section 8.8.2 of ISO/IEC 18004 asks of its modules: 3 for five of one colour in a row and one for each further one, 40 for a dark 1:1:3:1:1 with four light units, or the edge, on one side |
| QrChoice.LineExact | qrcode/mask.c:300-320 | so are the demerits of every line of a symbol |
| QrChoice.RatioSteps | qrcode/mask.c:343-344 | ten for each full five percent away from the half |
| QrChoice.RatioRounded | qrcode/mask.c:343 | the ratio is the percentage of dark modules, rounded to the nearest |
| QrChoice.ChooseMask | qrcode/mask.c:322-357 | of the eight masked symbols, one whose demerits no other undercuts, the first of several; the sums stay below INT_MAX |
| QrMask.WriteFormatInformation | qrcode/mask.c:34-75 | the 15 bits are written twice, nothing else changes, twice the number of ones is returned |
| QrBch.FormatWords | qrcode/qrspec.c:376-381 | all 32 words of format information are the level and mask with their BCH remainder and the mask of annex C of ISO/IEC 18004 |
| QrBch.VersionWords | qrcode/qrspec.c:356-361 | all 34 words of version information are the version with its BCH remainder |
| QrMask.FormatRead | qrcode/qrspec.c:375-388 | the table of format information names its level and its mask |
| QrSymbol.EncodeSymbol | qrcode/qrencode.c:431-517 | for any entries and any mask argument: succeeds exactly if the argument is below 8 and the stream fits; the symbol then has its patterns, both copies of its format information, and the padded stream in its blocks, each a Reed-Solomon code word; the mask is the one given, or none for -2, or for any other negative number the one no other of the eight undercuts in demerits of the finished symbol |
| QrSymbol.FormatNames | qrcode/mask.c:34-75 | either copy of the format information in a symbol names its level and mask |
| QrSymbol.SymbolDecodes | qrcode/qrencode.c:431-517 | reading a symbol back, with the mask taken away, in the order of the path, de-interleaved, segment by segment, gives the data that was put in |
| QrSymbol.DamageTolerated | qrcode/qrencode.c:431-517 | a block of a symbol with at most half as many wrong codewords as it has check symbols is nearer to its data than to any other code word |
| Aes.CipherUndone | common/crypto/polaraes.c:614-766 | the inverse cipher undoes the cipher, for any S-box with an inverse and any round keys |
| Aes.Equivalent | common/crypto/polaraes.c:557-613 | the inverse cipher with transformed round keys, which the code runs, is the inverse cipher |
| AesStandard.RoundBytes | common/crypto/polaraes.c:614-766 | each byte of a round: the substitutes of its column, each from its own column of the state before, times 2, 3, 1, 1, and the key |
| AesStandard.EndBytes | common/crypto/polaraes.c:614-766 | the key alone before the first round, no mixing in the last |
| AesStandard.BlockBytes | common/crypto/polaraes.c:614-766 | byte r of column c of a state is byte 4c + r of a block, both in and out |
| AesStandard.ScheduleStart | common/crypto/polaraes.c:447-552 | the first words of a schedule are the key |
| AesStandard.ScheduleBytes | common/crypto/polaraes.c:447-552 | every later word, byte by byte, from the word nk places back and the one before it: turned by one byte and substituted with a power of 2 at each multiple of nk, substituted in the middle of a long key, and else as it is |
| AesAnswers.Key128Round10 | common/crypto/polaraes.c:486-498 | the last round key of the 128-bit example in appendix A.1 of FIPS-197 |
| AesAnswers.Key192 | common/crypto/polaraes.c:500-513 | words 6 to 11 of the 192-bit example, appendix A.2 |
| AesAnswers.Key256 | common/crypto/polaraes.c:515-537 | words 8 to 15 of the 256-bit example, appendix A.3 |
| AesAnswers.Block128 | common/crypto/polaraes.c:614-766 | the block of appendix B of FIPS-197 is encrypted to the one given there |
| AesField.ThreeGenerates | common/crypto/polaraes.c:372-380 | the powers of 3 are all the bytes but zero, so the logarithm table is complete |
| AesField.ProductOfPowers | common/crypto/polaraes.c:361-362 | adding logarithms multiplies |
| AesField.SubByteInjective | common/crypto/polaraes.c:393-412 | the S-box, an affine map of the inverse in the field, substitutes no two bytes by the same |
| PolarTables.Tables.GenTables | common/crypto/polaraes.c:366-440 | the generated boxes are the S-box of FIPS-197 and its inverse, the eight round tables and the constants follow from them |
| PolarAes.Context.SetKeyEnc | common/crypto/polaraes.c:447-552 | the key schedule of section 5.2 of FIPS-197 for 128, 192 and 256 bits; other sizes are refused |
| PolarAes.Context.SetKeyDec | common/crypto/polaraes.c:557-613 | the same schedule in reverse order, the inner keys unmixed |
| PolarAes.Context.CryptEcb | common/crypto/polaraes.c:614-766 | the unrolled table rounds are the cipher and the equivalent inverse cipher |
| PolarAes.EcbRoundTrip | common/crypto/polaraes.c:614-766 | decryption with the decryption schedule of a key undoes encryption with its encryption schedule, for every key and block |
| AesModes.CbcUndone | common/crypto/polaraes.c:771-831 | CBC decryption undoes CBC encryption |
| AesModes.CfbUndone | common/crypto/polaraes.c:836-879 | CFB128 decryption undoes encryption and ends in the same register and offset |
| AesModes.CfbCut | common/crypto/polaraes.c:836-879 | a CFB128 stream may be cut into calls anywhere |
| AesModes.CtrUndone | common/crypto/polaraes.c:884-913 | CTR applied twice is nothing |
| AesModes.CtrCut | common/crypto/polaraes.c:884-913 | a CTR stream may be cut into calls anywhere |
| AesStreams.CbcBlocks | common/crypto/polaraes.c:771-831 | each block of a CBC encryption is the block of plain text added to the block of cipher text before it, encrypted |
| AesStreams.CfbBytes | common/crypto/polaraes.c:836-879 | each byte of a CFB128 encryption is the byte of plain text added to one of the encryption of the block of cipher text before |
| AesStreams.CtrBytes | common/crypto/polaraes.c:884-913 | each byte of a CTR encryption is the byte added to one of the encryption of the counter so many steps on |
| AesStreams.AdvancedCounts | common/crypto/polaraes.c:897-899 | the counter n steps on is n more, modulo 2^128 |
| AesModes.Counts | common/crypto/polaraes.c:897-899 | the counter bytes count, and wrap to zero after the last value |
| PolarModes.CbcEncryptBuffer | common/crypto/polaraes.c:771-831 | the output, which may be the input buffer, becomes the CBC encryption of the input, the vector its last block; lengths not divisible by 16 are refused and change nothing |
| PolarModes.CbcDecryptBuffer | common/crypto/polaraes.c:771-831 | the output, which may be the input buffer, becomes the CBC decryption of the input, the vector the last block of the input |
| PolarModes.Cfb128 | common/crypto/polaraes.c:836-879 | output, register and offset are those of the CFB128 specification, in the input buffer or another |
| PolarModes.CryptCtr | common/crypto/polaraes.c:884-913 | output, counter, stream block and offset are those of the CTR specification, in the input buffer or another |
| AesBoxes.SboxRight | common/crypto/aeslib.c:62-95 | all 256 entries of the table Sbox are those of the S-box of FIPS-197 |
| AesBoxes.TablesInverse | common/crypto/aeslib.c:97-130 | the table InvSbox takes back what Sbox does |
| AesLib.KeyExpansion | common/crypto/aeslib.c:247-292 | with its own RotWord and table of constants, the same key schedule as polaraes.c, of which AesStandard.ScheduleBytes says every byte |
| AesLib.EncryptBlockInPlace | common/crypto/aeslib.c:405-434 | the 16 bytes become the block encrypted, the others stay |
| AesLib.EncryptCbc | common/crypto/aeslib.c:522-556 | the buffer is CBC encrypted in place |
| AesLib.DecryptCbc | common/crypto/aeslib.c:558-591 | the buffer is CBC decrypted in place |
| AesLib.CbcRoundTrip | common/crypto/aeslib.c:522-591 | with the tables of the source, decrypting with the same key and vector gives the data back, for every key length argument |
| ReList.List.Append | common/re_list.c:82-111 | the links follow the sequence with the new element at the end; an element already in a list is refused |
| ReList.List.InsertBefore | common/re_list.c:145-175 | the links follow the sequence with the new element before the given one |
| ReList.Le.Unlink | common/re_list.c:206-228 | the element is gone from the sequence and its own links are cleared |
| ReList.List.Sort | common/re_list.c:238-270 | wherever its passes settle, the sort ends, permutes stably, leaves every neighbouring pair in order and, for a transitive handler, the whole list sorted |
| ListOrder.SortedOnce | common/re_list.c:238-270 | there is only one sorted stable arrangement |
| ListOrder.SettlesExactly | common/re_list.c:238-270 | passes settle on every list if and only if the handler is total |

## Left out

- HttpExecute.HttpParser.Execute: nread is an unbounded counter, where the source's 32-bit one would wrap after 4 GiB in one call; callbacks answer 0 and never pause the parser, except that on_headers_complete may answer 0, 1 or 2; the strict build only; which callbacks a failing call has already made and the record it leaves, apart from the error, are not specified.
- HttpFragment.ExecuteAll: says nothing of the input after an upgrade, and of the callbacks of a run that fails.
- HttpFraming.LengthMessage, HttpFraming.ChunkedMessage: begin at the first header of a message whose headers are read without error; for whole messages from their bytes see HttpMessages and HttpResponses.
- HttpFields.HeadReads: a list of fields has no values folded over several lines, for which there are HttpFields.FoldExact and what HttpHead.PrefixMoves says of any head.
- HttpSize.Tally: counts as the source does from the counter a call begins with, which a call that ends inside a name or value leaves one too high.
- http_parser_parse_url, the parsing of hosts, http_parser_pause and the names of errors are not modelled.
- Rsecc.Encoder.Encode: an ecc_length below 2 indexes in front of the tables in the source and is a precondition here; locks and failing allocation are left out.
- QrInput.Input.EstimateVersion: the two estimates the loop compares are characterized, not that the result is minimal, which the source does not promise either.
- QrSplit.SplitToStruct: input that already has structured-append entries is excluded; for Kanji the estimate of the source can be too small, and then only success is specified.
- QrFrame.EncodeMask: the frame is any frame with the properties of PlacementExact; for the frames that are drawn see QrSymbol.EncodeSymbol.
- QrSplit.InsertHeaders: entry lists and lists of symbols are sequences; Micro QR, FNC1 and ECI entries are not modelled.
- PolarAes.Context.CryptEcb: a returned block stands for the output pointer.
- PolarModes.CbcEncryptBuffer, PolarModes.CbcDecryptBuffer, PolarModes.Cfb128, PolarModes.CryptCtr: input and output are one buffer or two, not two that overlap in part.
- AesLib.CbcRoundTrip: the tables GFMul2, GFMul4 and GFMul8 are doublings and not compared entry by entry; PadLock instructions and NULL arguments of both ciphers are not modelled.
- ReList.List.InsertBefore: the element given is one of this list, which the source leaves to its callers.
- ReList.List.Sort: where the passes do not settle, the source does not return; the handler is a function of the user data; list_flush, list_clear, list_apply and NULL arguments are not modelled; unlinking and inserting take the position of the element as a ghost argument.
- MD5, the choice of modes for strings in qrcode/split.c, sockets, threads, files and devices are not part of this model.
