# Model of the Provenance Ledger app

The app signs Cosmos transactions on a Ledger device. A host sends a START command with hashes, then serves
the hash-linked blocks of the transaction and of the key path one by one. The device reads the transaction up
to three times from clones of one stream: silently, to recognise it; with prompts, to show it; and once more
to hash it. This project models that pipeline and proves that what is recognised, shown and signed is the same
byte string, whatever the host answers.

`dafny verify dfyconfig.toml` checks everything.

## The parts

| files | what they model |
|---|---|
| `Octets`, `Numbers` | bytes, the bounded `ArrayVec`, numbers as byte strings |
| `Decimals` | the amount renderer: the loop over the digits, the two layouts, and what its text means |
| `Wire`, `Interp`, `Runs` | the protobuf wire format, the combinator trees as a datatype with an evaluator, and what holds of every tree |
| `Screen` | prompts, the closures of the tree with and without PROMPT, prompt erasure |
| `Messages`, `Windows` | a message as a list of fields, and the fields of any bytes, found by walking them |
| `Transaction`, `Handed`, `Transcript` | the transaction tree, and what any accepted bytes hand to its closures and put on the screen |
| `Documents`, `Display`, `Legible` | sign documents, their round trip and their lines |
| `Spelled` | documents spelled out with the tag bytes and texts of the schemas |
| `Lines`, `Telling` | which lines any accepted bytes lack, and what can be told from those that are there |
| `Blocks` | the block protocol: hash-linked chains, cursors, clones |
| `Signing`, `SignApdu` | a request as a step machine over the replies of an arbitrary host, and `sign_apdu` and `get_address_apdu` as imperative code that computes it |
| `Refusals` | what a request shows when recognition fails or the host does not deliver |
| `Outcomes`, `Blind` | what a signature or an address reply stands for, and when it is a blind one, over every run against every host |
| `Honest`, `HonestAddress` | a host that keeps the protocol: what every signing or address request comes to, for any bytes, path and person |
| `Conversation`, `EndToEnd` | the same over the events of the whole device, and for documents from their spelled bytes to the signature |
| `Menus`, `EventLoop`, `Buttons`, `AppMain` | the menus, the setting, the event loop as a machine and as objects with shared or copied settings |
| `Authority` | what stands behind a signature that leaves the device, over every sequence of events |
| `Keys`, `Addresses`, `Paths` | public keys, DER signatures, Bech32 addresses, replies, key paths |
| `Pages` | the prompt pages of the TypeScript harness: cutting and putting together |

## How to read it

* **Imperative code is proved against functions.** `Decimals.GetAmountInDecimals`, `SignApdu.Sign`,
  `SignApdu.GetAddress`, the menu classes, `AppMain.Device`, `Keys.FormatSignature` and the page loops follow the
  source statement by statement; their contracts name a specification function, and the lemmas say what that
  function means.
* **The host** is the list of replies it sends; every theorem about requests is for all lists.
  `Signing.Fold` is the state of a request after them.
* **The hash** is a function parameter. Theorems that need it assume only that the blocks that were really
  accepted hold no two different ones with the same hash (`Blocks.NoCollision`). Global injectivity into 32
  bytes would be impossible.
* **The person** answers each prompt by a function of the prompts shown so far in the request.
* **Constants** (field numbers, tags, texts, capacities, prefixes) have a name in the model, and each is written out in
  the theorem that says what it is for: `Spelled`, `Honest.FateOf`, `HonestAddress`, `Buttons` and the lemmas named
  `...Spelled` do not use the names.
* **Every lemma** carries `{:induction false}`: nothing is left to automatic induction.
* **An interpreter run** threads a state through a handler that stands for the closures, so that silent runs,
  prompting runs and runs that only note events are the same evaluator. A run sees only the bytes that have
  arrived of its window; `Starved` means that more of them are needed.

## Assumptions about code that is not in the repository

The parser combinators (`ledger-parser-combinators`), the block streams (`alamgu-async-block`) and the prompts
(`ledger-prompts-ui`) are not part of this model. It takes from their call sites and from `docs/`:

* Structs named `...UnorderedInterp` read fields as they come; those named `...Interp` read the same bytes once
  per field, in schema order. An Any is read for its type URL, then for its value.
* Fields without an entry are stepped over. A known field with another wire type, a payload that reaches past its
  window, and a varint over ten bytes or 64 bits are refused (Protocol Buffers Encoding, "Base 128 Varints" and
  "Message Structure").
* What happens on a second occurrence of a kept field (`Library.again`), and whether an ordered message refuses
  when a singular field is missing (`Library.strict`), are parameters of all theorems. A second occurrence is
  always parsed.
* Interpreters that read a window several times (`any_of!`, the `...Interp` structs) find in it what they have read
  before: within one pass no block is asked for twice. The three passes of a request each ask for all blocks anew.
* `get_params::<N>` needs at least N hashes. A read asks for one block at a time; a wrong hash or an unexpected
  message ends the request; a FAILURE or the end of the chain makes the silent pass fail (it runs under `TryFuture`)
  and refuses everywhere else.
* A scroller whose text cannot be written shows nothing and counts as refused.
* A START replaces a pending request; a finished or failed request leaves the loop.

Where `docs/apdu.md` and the code differ, the code is followed: path steps are little-endian
(`rust-app/src/interface.rs:13`), and GET_PUBKEY also returns the address. On an empty amount the renderer slices out
of range and the app halts, and so does `format_signature` on an integer of more than 32 bytes: in the model
there is then no text and no signature.

Four findings about the code are stated exactly:

* A zero amount is not rendered canonically but keeps its number of digits (`Decimals.CanonicalExactly`,
  `Decimals.ZeroNotCanonical`).
* The screens of VERIFY_ADDRESS cannot be refused (`Outcomes.AnswersIgnored`).
* A transaction that the app can recognise is signed the blind way if and only if the host answers a FAILURE to the
  recognition (`Blind.KnownExactly`), and a host can do so for every one of them (`Honest.RecognisableSignedBlindly`).
* Accepted transactions can lack lines, and exactly when is known for all bytes (`Lines.NothingMissing`). A transfer
  has no line for an address that is absent or not UTF-8, because only the answer to the amount counts
  (`Lines.TransferShown`, `Lines.RecipientAbsent`, `Legible.RecipientMissing`). Without auth info or a fee in it there is
  no line for a fee (`Lines.FeeAbsent`). If the library is not strict, a delegation or deposit has no line for a field it
  lacks (`Lines.BondShown`, `Lines.DepositShown`, `Lines.EmptyValue`), and an Any without a URL shows nothing at all
  (`Transcript.AnyHands`).

## Model

| member | source | states |
|---|---|---|
| `Decimals.GetAmountInDecimals` | rust-app/src/implementation.rs:174-228 | The scan and layout loops compute the rendering of the amount divided by 10^9 into a buffer of any capacity of at least 11, or fail, with every index in range |
| `Decimals.Lay` | rust-app/src/implementation.rs:196-227 | From the positions the scan found, the pushes into the bounded buffer give exactly the shape for them, and fail exactly if it does not fit |
| `Decimals.ShapeIsRendered` | rust-app/src/implementation.rs:196-227 | The four output shapes, chosen by digit positions, are the canonical numeral of the value (or the zero shape), and they overflow exactly if all capacity digits are printed |
| `Decimals.RenderedIsExact` | rust-app/src/implementation.rs:165-228 | Reading the text back as integer and fraction gives the number the digits denote, whatever their leading and trailing zeros |
| `Decimals.RenderedIsNumeral` | rust-app/src/implementation.rs:165-228 | The text is digits, the character 46, and one to nine more digits, which together are the number divided by 1000000000 |
| `Decimals.RenderedDetermines` | rust-app/src/implementation.rs:165-173 | For a non-zero amount, equal texts if and only if equal values |
| `Decimals.CanonicalReadsBack` | rust-app/src/implementation.rs:165-173 | The canonical numeral of any number reads back as that number |
| `Decimals.CanonicalExactly` | rust-app/src/implementation.rs:179-226 | The text is the canonical numeral if and only if the value is not zero or the input has 9 or 10 digits |
| `Decimals.ZeroNotCanonical` | rust-app/src/implementation.rs:216-226 | The input "0" comes out with nine zeros after the point |
| `Decimals.RenderedIsTidy` | rust-app/src/implementation.rs:186-215 | Non-zero amounts have no leading zero except a lone one, no trailing zero except a lone one, and a digit on both sides of the point |
| `Decimals.RenderedFails` | rust-app/src/implementation.rs:180-225 | Rendering fails if and only if some byte is no digit, or the input fills the capacity with both ends non-zero; a result fits the capacity |
| `Decimals.RenderedIsText` | rust-app/src/implementation.rs:145-146 | A rendered amount is valid UTF-8, so showing it cannot fail on its encoding |
| `Wire.U64ReadsBack` | rust-app/src/implementation.rs:346 | A 64-bit varint reads back with its own length, whatever follows it in the window |
| `Wire.VarintBound` | rust-app/src/implementation.rs:346 | Nothing beyond 64 bits is ever read from the ten bytes of a varint |
| `Wire.VarintMeans` | rust-app/src/implementation.rs:346 | A varint ends at the first byte below 128 and means the number in the low seven bits of its bytes, least significant first |
| `Windows.DecodedRun` | rust-app/src/implementation.rs:251-407 | On any bytes whatever, the evaluator of an unordered message is the fold over the fields found by walking them, overlong varints, fixed-width and unknown fields included, and it accepts only bytes that are whole fields to the end |
| `Handed.MessageFills` | rust-app/src/implementation.rs:355-405 | An accepted unordered message is whole fields that fill the window; every known one is accepted by its own interpreter on nothing but its own payload, and what is handed to the closures is what these hand over, in order |
| `Handed.OrderedFills` | rust-app/src/implementation.rs:315-353 | The same for an ordered message: whole fields, each taken by the interpreter of its part, pass after pass in schema order; under a strict library every singular part has a field |
| `Handed.AnyFills` | rust-app/src/implementation.rs:257-268 | The same for an Any: whole fields, every value window is accepted by the arm its type URL selects, and these hand over all there is |
| `Windows.WindowsInside` | rust-app/src/proto/cosmos/tx/v1beta1/mod.rs:21-72 | Every window found by walking a message lies inside the bytes of the message |
| `Windows.FieldsOfEncoding` | rust-app/src/proto/cosmos/tx/v1beta1/mod.rs:21-72 | On the encoding of any fields the walk finds exactly the fields that were encoded |
| `Runs.EvalStable` | rust-app/src/implementation.rs:443-460 | Once a run is decided on the bytes present, no later bytes change its outcome, for every tree and handler |
| `Runs.EvalDecided` | rust-app/src/implementation.rs:443-460 | A run on a complete window is always decided |
| `Runs.EvalAgrees` | rust-app/src/implementation.rs:230-407 | For every tree, a run under any closures is the run that only notes events with those events replayed to the closures in order |
| `Screen.UiExactly` | rust-app/src/implementation.rs:278-401 | Which prompts a closure shows, and that it succeeds if and only if it has a deciding text and that prompt is accepted; the answers to Transfer, From and To do not count |
| `Screen.ReplayExactly` | rust-app/src/implementation.rs:86-163 | A sequence of closures gets through if and only if each one in turn is shown and accepted after all earlier prompts |
| `Screen.ReplayStops` | rust-app/src/implementation.rs:86-163 | A sequence of closures stops at the first one that is refused: its prompts and those before it are on the screen, and none after it |
| `Screen.OtherDenomination` | rust-app/src/implementation.rs:137-163 | A coin of another denomination is not shown where only nhash is expected, and otherwise as amount, space and denomination |
| `Screen.PromptErasure` | rust-app/src/implementation.rs:116-135 | For every tree and every byte string, prompting accepts if and only if silent mode does and every closure reached passes; it then has parsed the same value and shown exactly the prompts of those closures, in order |
| `Screen.SilentShowsNothing` | rust-app/src/implementation.rs:443-451 | Silent mode leaves the screen alone, and its verdict and value depend on the bytes only |
| `Windows.EncodedRun` | rust-app/src/proto/cosmos/tx/v1beta1/mod.rs:21-72 | On the encoding of any list of fields, in any order, with repetitions and unknown numbers, the byte-level evaluator is the fold over the list |
| `Messages.DroppedHaveNoEffect` | rust-app/src/implementation.rs:355-405 | Leaving out all dropped and unknown fields changes neither verdict nor closures nor kept values |
| `Windows.MessageOfKept` | rust-app/src/implementation.rs:355-405 | Any bytes are read as an unordered message by the fold over their kept fields alone |
| `Windows.FindsOnce` | rust-app/src/implementation.rs:323-353 | A pass of an ordered message finds a field that occurs once wherever it stands in the bytes |
| `Transaction.UnknownRefused` | rust-app/src/implementation.rs:258-268 | Whatever its bytes, an Any that names a URL outside the table is never accepted, in either mode; one that names none is not accepted if ordered messages must be complete |
| `Transcript.TxnHands` | rust-app/src/implementation.rs:251-407 | Whatever bytes the parser accepts, it hands over exactly what their windows say: body and auth info in the order of the bytes, message by message, value by value, field by field, whatever is missing, repeated, unknown or oddly encoded |
| `Transcript.TranscriptConserved` | rust-app/src/implementation.rs:253-406 | Transcript conservation over all bytes: the prompting pass accepts if and only if the bytes are acceptable and each closure in turn is shown and accepted, and it then has shown the prompts of the windows, one after the other and nothing else |
| `Transcript.AnyHands` | rust-app/src/implementation.rs:257-268 | An accepted Any hands over its values and has a known URL, or it has none at all and hands nothing over, which a strict library does not accept |
| `Documents.DocumentReads` | rust-app/src/implementation.rs:251-407 | Any bytes that spell a document with every kept field once (auth info before or behind the body, the fields of every part in any order, dropped and unknown ones of every wire type anywhere, varints of any length) are read as its own messages in order and its fee on the side it comes, and accepted if and only if all of them fit their buffers |
| `Display.DocumentShown` | rust-app/src/implementation.rs:253-406 | The conserved transcript of such a document is the text of its own values: the lines of every message, message by message, and the fee on its side |
| `Lines.NothingMissing` | rust-app/src/implementation.rs:278-406 | In an accepted prompting pass over any bytes, a message with a known URL has all its lines on the screen if and only if it has a value and its values are complete (a transfer keeps both addresses, as UTF-8; a delegation or deposit has a field for each line), and there is a line for the fee if and only if some auth info holds a fee |
| `Lines.TransferShown` | rust-app/src/implementation.rs:284-309 | Transfer and Amount are always shown; From if and only if the sender is kept and is UTF-8, To if and only if the recipient is |
| `Lines.AddressKept` | rust-app/src/implementation.rs:269-303 | An address field that is not in the bytes is not kept; one that is there once is kept as it is, and shown if it is UTF-8 |
| `Lines.BondShown` | rust-app/src/implementation.rs:315-342 | Whichever fields an accepted delegation lacks, it shows its title and a line for an address or the amount if and only if that field is there |
| `Lines.DepositShown` | rust-app/src/implementation.rs:343-353 | An accepted deposit shows proposal, depositor and amount each if and only if that field is there |
| `Lines.EmptyValue` | rust-app/src/implementation.rs:315-353 | A delegation or deposit without any field is accepted if and only if the library is not strict; the one shows only its title, the other nothing |
| `Lines.StrictBond` | rust-app/src/implementation.rs:315-342 | Under a strict library an accepted delegation has all its fields and so all its lines |
| `Lines.StrictDeposit` | rust-app/src/implementation.rs:343-353 | Under a strict library an accepted deposit has proposal and depositor; the amount, repeated in the schema, may still be absent |
| `Lines.RecipientAbsent` | rust-app/src/implementation.rs:287-309 | A transfer without a recipient field is accepted by every library and shows Transfer, From and Amount, all of which can be accepted |
| `Lines.FeeAbsent` | rust-app/src/implementation.rs:361-402 | A transaction of a body only, with any messages that fit, is recognised, hands over exactly those messages and has no line for a fee |
| `Legible.LinesOf` | rust-app/src/implementation.rs:278-353 | For messages with every field, in terms of their values: a transfer shows its full lines if and only if both addresses are UTF-8, the other three always |
| `Legible.RecipientMissing` | rust-app/src/implementation.rs:295-303 | A transfer to the address 0xFF fits, is accepted, and shows no line for the recipient |
| `Telling.TranscriptTells` | rust-app/src/implementation.rs:253-406 | Any two accepted byte strings with equal transcripts hand the same closures the same values in the same order, but for leading zeros of amounts, the gas, and addresses of transfers that are not shown |
| `Telling.ScreenTells` | rust-app/src/implementation.rs:253-406 | For two documents: the same messages in the same order and the same fee amount, with the same exceptions |
| `Display.MessagesComeBack` | rust-app/src/implementation.rs:257-354 | The messages can be read back from what the closures received, none lost, changed or reordered |
| `Transcript.UnknownAnywhere` | rust-app/src/implementation.rs:257-268 | Whatever the bytes of the transaction, a message window in a body window that names a type URL outside the table makes the pass fail, silent or prompting |
| `Display.EncoderLays` | rust-app/src/proto/cosmos/tx/v1beta1/mod.rs:21-72 | The encoder of whole documents, with dropped fields and the two-byte tags 1023 and 2047, spells a document in the sense of the document theorems |
| `Spelled.DocumentSpelled` | rust-app/src/proto/cosmos/tx/v1beta1/mod.rs:21-72 | The encoder writes exactly the documents spelled out with the tag bytes and type URLs of the schemas |
| `Spelled.SpelledOut` | rust-app/src/implementation.rs:251-407 | Whatever unknown fields of the four wire types follow a document spelled out byte by byte, it is recognised if and only if its addresses have at most 50 bytes, its denominations 20 and its amounts 64, and an accepted prompting pass has shown the lines of its own values |
| `Spelled.TransferNames` | rust-app/src/implementation.rs:269-309 | In any accepted transfer, field 1 is shown as From and field 2 as To, and the amount is field 2 of the coin in field 3 |
| `Display.SignDocRoundTrip` | rust-app/src/proto/cosmos/tx/v1beta1/mod.rs:21-72 | Encoding any document and interpreting it gives back its messages and fee, and it is refused exactly if something does not fit |
| `Blocks.TracesAgree` | docs/block-protocol.md:63-64 | Without collisions among the accepted blocks, two readers that start at one cursor are served the same blocks by any host, as far as both get |
| `Blocks.CloneReadsSuffix` | rust-app/src/implementation.rs:443-451 | A clone taken k bytes into a stream reads the bytes that follow position k, although the host serves every block again |
| `Blocks.ChainReadsBack` | docs/block-protocol.md:77-87 | For any parameter and any positive chunk size, reading the chain from its head gives back exactly the parameter and arrives at the all-zero link |
| `Blocks.ServedIsChain` | docs/block-protocol.md:54-64 | Whatever an arbitrary host gets accepted against the head hash of a chain is a prefix of the parameter, and all of it if it ends |
| `Blocks.BesideComplete` | docs/block-protocol.md:63-87 | Beside a complete chain, any other accepted sequence reads a prefix, and is that chain if it ends |
| `SignApdu.ByteStream.ReadSome` | docs/block-protocol.md:57-64 | One read takes one reply: the block is used only if it has the requested hash, and the cursor moves by exactly the bytes taken |
| `SignApdu.ReadLength` | rust-app/src/implementation.rs:430 | The length comes off the stream itself, which goes on behind its fourth byte |
| `SignApdu.ReadPath` | rust-app/src/implementation.rs:432-441 | The path is read through a clone and must have the prefix |
| `SignApdu.Recognise` | rust-app/src/implementation.rs:443-451 | The silent pass over a clone, where a block that is not served makes the transaction unknown |
| `SignApdu.ShowTxn` | rust-app/src/implementation.rs:453-460 | The prompting pass over another clone |
| `SignApdu.WarnUnknown` | rust-app/src/implementation.rs:461-471 | An unknown transaction is refused on setting 0 and needs an accepted warning otherwise |
| `SignApdu.HashTxn` | rust-app/src/implementation.rs:473-480 | The digest covers exactly the first `length` bytes of a third clone |
| `SignApdu.Conclude` | rust-app/src/implementation.rs:482-507 | Last screens and signature, or a refusal |
| `SignApdu.Sign` | rust-app/src/implementation.rs:424-510 | Against any host, `sign_apdu` ends or waits with the outcome and the screen transcript of the step machine |
| `SignApdu.GetAddress` | rust-app/src/implementation.rs:38-84 | The same for `get_address_apdu` |
| `Signing.FoldKeeps` | rust-app/src/implementation.rs:424-510 | In every state of every run: which blocks each pass was served from which cursor, what it decided on them, and what was shown; a refused run has shown nothing, or exactly what recognition and the last answer call for, with the reason for the refusal if blind signing is off |
| `Refusals.UnknownShows` | rust-app/src/implementation.rs:461-471 | After any replies: once the recognition has failed (bytes refused, a FAILURE, or the end of the chain), setting 0 ends the request with the one screen that tells to enable blind signing; otherwise the person is told that the transaction is not recognized, and the request goes on only if they accept |
| `Refusals.UndeliveredEnds` | docs/block-protocol.md:54-64 | A message that is not expected or a block with another hash ends any request, and a FAILURE any but the recognition, with the screens shown so far |
| `Outcomes.SameBytes` | rust-app/src/implementation.rs:443-504 | If a signature comes out, recognition, prompting and hashing read one and the same byte string of exactly `length` bytes, its verdicts are those of that string, and the signature is over its digest with the key of the path |
| `Outcomes.FixedByStart` | rust-app/src/implementation.rs:425-441 | That string starts right behind the four length bytes of the parameter the START hash stands for, has as many bytes as those say, and the path is the one the second hash stands for |
| `Outcomes.Authorised` | rust-app/src/implementation.rs:439-507 | Every signature follows an accepted last prompt for a path with the prefix; for an unknown transaction also a non-zero setting, an accepted warning and an accepted screen with the very digest that is signed, and no other screens |
| `Outcomes.ShownIsSigned` | rust-app/src/implementation.rs:453-496 | The screen transcript of a recognised signature is that of the signed bytes, told window by window, every closure shown and accepted in turn, plus the last prompt |
| `Blind.KnownExactly` | rust-app/src/implementation.rs:443-471 | A signature is a recognised one if and only if the signed bytes are recognisable and the host answered no FAILURE to the recognition |
| `Blind.DocumentSigned` | rust-app/src/implementation.rs:251-510 | If the signed bytes spell a document, it was recognised if and only if the document fits and no FAILURE was answered to the recognition, and then the transcript is that document's own lines and the last prompt |
| `Outcomes.AddressAnswered` | rust-app/src/implementation.rs:38-80 | An address reply has 76 bytes with the compressed key of a path with the prefix and a text of 41 characters from which the hash of that key can be read; VERIFY_ADDRESS has shown that text |
| `Outcomes.AddressFixedByStart` | rust-app/src/implementation.rs:39-48 | The path of the reply is the one the START hash stands for |
| `Outcomes.ReplyTellsKey` | rust-app/src/crypto_helpers.rs:61-65 | Equal replies mean equal public keys, for keys on the curve |
| `Outcomes.AnswersIgnored` | rust-app/src/implementation.rs:57-61 | The whole run of an address request is the same whatever the person answers |
| `Honest.HonestHostGetsSignature` | docs/block-protocol.md:52-87 | For every transaction, path and chunk sizes, the host that answers each requested hash with the block that has it brings a person who accepts to a signature of exactly that transaction, after exactly its screens, within a number of replies given by the chains; a host that withholds during the recognition brings it the blind way |
| `Honest.RecognisableSignedBlindly` | rust-app/src/implementation.rs:443-471 | For every recognisable non-empty transaction, one FAILURE during the recognition and then its blocks end in a blind signature, if the setting allows it and the person accepts the warning, the digest and the last prompt |
| `Honest.HonestFate` | rust-app/src/implementation.rs:424-510 | For all transactions, paths, chunk sizes, settings, people and signers: the host that serves the blocks asked for brings the request, within a number of replies given by the chains, to the outcome and the screens that bytes, path, setting and answers determine, refusals included |
| `Honest.UnknownIsTold` | rust-app/src/implementation.rs:461-468 | Such a host brings a transaction the app does not know, with blind signing off, to the screen that says why it is refused |
| `Honest.TxnDataSpelled` | rust-app/src/implementation.rs:430 | The first parameter is the length in four bytes, least significant first, and then the transaction |
| `HonestAddress.HonestHostGetsAddress` | rust-app/src/implementation.rs:38-84 | For every path and chunk size, the host that serves the blocks of the path gets, within as many replies as there are blocks, 76 bytes with the compressed key (2 plus the parity of Y, then X) and the address (`pb1`, the digits of the hash to the base 32 in the Bech32 alphabet, the checksum); the prompts come exactly if asked for; a path without the prefix or a key is refused without a screen |
| `Conversation.SessionSigns` | docs/block-protocol.md:52-87 | After any events of host and buttons: a START for signing and then commands that answer the hash in each GET_CHUNK bring the host the signature that is the fate of the transaction, or an error, within the blocks of the parcel |
| `Conversation.SessionAnswers` | docs/block-protocol.md:52-87 | The same for addresses: VERIFY_ADDRESS shows them and GET_PUBKEY does not, and both reply |
| `Conversation.OtherBlocksFail` | docs/block-protocol.md:57-64 | After a GET_CHUNK, a block with another hash or an unexpected message gives an error and ends the request |
| `EndToEnd.DocumentGetsSigned` | rust-app/src/implementation.rs:424-510 | Encode any document that fits, cut it into chunks of any size, and let the host answer each request with the block that was asked for: the accepting person reads exactly the lines of its messages and fee and the last prompt, and exactly its bytes are signed |
| `EndToEnd.DocumentWilling` | rust-app/src/implementation.rs:443-460 | The bytes of such a document are recognised, and their screens are its own lines |
| `EndToEnd.SessionSignsDocument` | rust-app/src/main_nanos.rs:55-109 | After any events, in either build: START a signature for a document spelled out byte by byte and answer each GET_CHUNK; the person who accepts reads exactly the lines of its messages and fee and `Sign Transaction?`, and the host hears the signature over its digest |
| `Menus.IdleMenuWithSettings.MoveLeft` | rust-app/src/menu.rs:40-57 | The left button on the idle menu; the setting decides which sub-menu item comes |
| `Menus.IdleMenuWithSettings.MoveRight` | rust-app/src/menu.rs:58-75 | The right button |
| `Menus.IdleMenuWithSettings.HandleBoth` | rust-app/src/menu.rs:76-107 | Both buttons: new menu, new setting, and whether the app is left |
| `Menus.MovesUndo` | rust-app/src/menu.rs:40-75 | Left and right undo each other exactly where the shown item matches the setting |
| `Menus.LabelTellsSigner` | rust-app/src/menu.rs:108-163 | The label reads Disabled if and only if the item is shown and the signer's test `== 0` would refuse, although the menu tests `== 1` |
| `Buttons.BothPressed` | rust-app/src/menu.rs:76-107 | In every reachable idle state: both buttons set the setting to 1 exactly where the label says Disabled, to 0 where it says Enabled, and the label then says the other; they leave the app exactly where it says Quit |
| `Buttons.OnePressed` | rust-app/src/menu.rs:40-75 | In every reachable idle state: the label to the left and to the right of each label |
| `Buttons.TopLines` | rust-app/src/menu.rs:108-163 | Which top line goes with which bottom line, and that the app begins with its name |
| `Buttons.BusyPressed` | rust-app/src/menu.rs:166-203 | While a request is pending: right offers Cancel, left takes the offer back, and both buttons cancel exactly if Cancel is shown |
| `Buttons.PlainCommands` | rust-app/src/implementation.rs:512-545 | The answers to commands that need no blocks: version, exit, too few parameters |
| `Buttons.UnaskedAnswer` | rust-app/src/main_nanos.rs:60-80 | An answer to no request is an error |
| `Buttons.BusyReset` | rust-app/src/main_nanos.rs:81-84 | Whenever a command leaves nothing pending, the next request finds the busy menu at Working |
| `Buttons.Quiet` | rust-app/src/main_nanos.rs:86-108 | Buttons and ticks send nothing, ticks change nothing, and nothing happens after leaving |
| `EventLoop.AlwaysGood` | rust-app/src/main_nanos.rs:55-109 | After any events: menu and setting agree, the copy captured by a pending request is the live value, and the request is the run of its replies |
| `EventLoop.MenuTellsSigner` | rust-app/src/main_nanos.rs:55-109 | In every reachable state of either build the label agrees with what the signer reads |
| `EventLoop.BuildsAgree` | rust-app/src/settings.rs:1-59 | The NVM cell and the by-value byte give the same states, outputs and labels over every sequence of events |
| `EventLoop.SignatureHistory` | rust-app/src/main_nanos.rs:60-103 | A signature sent to the host is the run of a request that a START with the sign instruction began, over exactly the replies since then, with no cancel, failure or other START in between |
| `Authority.SignatureAuthorised` | rust-app/src/main_nanos.rs:55-109 | After any events of host and buttons: a signature sent out is that of the request of one START for signing, over the digest of its bytes with a key whose path has the prefix. It was recognised exactly if its bytes are and no FAILURE came, and then every prompt its bytes determine was accepted within that request; otherwise the setting at that START was not zero and warning, digest and last prompt were accepted |
| `EventLoop.NoStartNoSignature` | rust-app/src/main_nanos.rs:60-103 | Once nothing is pending, no events without a START make anything pending or bring out a signature |
| `EventLoop.CancelledStaysCancelled` | rust-app/src/main_nanos.rs:95-101 | After a cancel no later events without a START bring out a signature |
| `AppMain.Device.constructor` | rust-app/src/main_nanos.rs:33-37 | The device boots into the start state |
| `AppMain.Device.CopySettings` | rust-app/src/settings.rs:10-49 | Copying the settings shares the cell in one build and makes a new one in the other |
| `AppMain.Device.OnCommandEvent` | rust-app/src/main_nanos.rs:60-85 | A command starts, moves on or ends the pending request and resets the busy menu when none is left |
| `AppMain.Device.OnButtonEvent` | rust-app/src/main_nanos.rs:86-104 | Buttons go to the idle menu if nothing is pending and to the busy menu otherwise; a cancel clears the pending request |
| `AppMain.Device.OnEvent` | rust-app/src/main_nanos.rs:55-109 | One turn of the loop over the shared or copied settings objects is one step of the event machine, which has no objects |
| `AppMain.Device.Run` | rust-app/src/main_nanos.rs:55-109 | The loop over any list of events: every output and the last state are those of the machine |
| `Keys.CompressPublicKey` | rust-app/src/crypto_helpers.rs:139-149 | The filled buffer is the sign byte followed by the x coordinate |
| `Keys.CompressionInjective` | rust-app/src/crypto_helpers.rs:139-149 | For an odd prime with Euclid's lemma, two points of y^2 = x^3 + 7 with reduced coordinates and the same 33 bytes are equal (SEC 1, sections 2.3.3 and 2.3.4) |
| `Keys.FormatSignature` | rust-app/src/crypto_helpers.rs:25-59 | The 64-byte buffer holds r and s, padded on the left, or decoding failed |
| `Keys.SignatureHalves` | rust-app/src/crypto_helpers.rs:51-55 | The two halves have the big-endian values of r and s |
| `Keys.SignatureRoundTrip` | rust-app/src/crypto_helpers.rs:25-59 | For integers of at most 32 bytes, formatting the DER encoding (X.690, section 8.3) gives their 32-byte big-endian forms |
| `Keys.SignatureSpelled` | rust-app/src/crypto_helpers.rs:25-59 | For r and s below 2^256 the result has 64 bytes, r in the first 32 and s in the others, most significant byte first |
| `Keys.SignatureInjective` | rust-app/src/crypto_helpers.rs:25-59 | Different pairs of integers stay different |
| `Keys.MagnitudeBound` | rust-app/src/crypto_helpers.rs:51-52 | Having at most k bytes is being below 256^k, so the bound of 32 bytes is the bound 2^256 |
| `Addresses.Base32RoundTrip` | rust-app/src/crypto_helpers.rs:120-121 | Regrouping bits is invertible without padding; 20 bytes give exactly 32 symbols below 32 (BIP-173, "Bech32") |
| `Addresses.Base32IsPositional` | rust-app/src/crypto_helpers.rs:120-121 | The symbols of a byte string are its digits to the base 32 |
| `Addresses.AddressRoundTrip` | rust-app/src/crypto_helpers.rs:118-124 | An address text has 41 characters and gives its hash back |
| `Addresses.AddToReply` | rust-app/src/implementation.rs:63-80 | The two length-prefixed parts are pushed into the bounded buffer, or one does not fit |
| `Addresses.UnframeFramed` | rust-app/src/implementation.rs:63-80 | Reading the two length prefixes back recovers key and text |
| `Addresses.ReplyRoundTrip` | rust-app/src/implementation.rs:63-80 | The reply for a compressed key has 76 bytes, fits 128, and gives back key and hash |
| `Paths.PathRoundTrip` | rust-app/src/interface.rs:12-13 | Decoding inverts encoding for up to ten steps, uses exactly 1 + 4n bytes, and refuses longer counts |
| `Paths.PathSpelled` | rust-app/src/interface.rs:12-13 | A path is a count of at most ten and then four bytes for each step, least significant first |
| `Paths.PathStable` | rust-app/src/implementation.rs:432-437 | A decided path does not change when more bytes arrive |
| `Pages.PaginatePrompts` | ts-tests/common.ts:112-134 | The two loops compute the pages of all prompts, or throw on a text without a match |
| `Pages.ProcessPrompts` | ts-tests/common.ts:54-82 | The loop over the filtered screens computes the entries they are put together to |
| `Pages.PagesJoin` | ts-tests/common.ts:119 | The pages of a one-line text join to it, in as many pages as its length divided by the page length, rounded up, all within the page length |
| `Pages.PagesSpelled` | ts-tests/common.ts:112-134 | A one-line text that fits a page is one entry with its own header; a longer one gives as many entries as it needs, headed with number and count, each with its slice of the text |
| `Pages.PageHeadersDiffer` | ts-tests/common.ts:125 | Headers of different pages of one prompt differ |
| `Pages.ProcessInvertsDrawing` | ts-tests/common.ts:54-82 | Screens that draw a list of entries, in any number of pieces, are put together to that list |
| `Pages.ProcessExactly` | ts-tests/common.ts:60-66 | That works if and only if no two titled neighbours share a header |
| `Pages.RowsSpelled` | ts-tests/common.ts:60-76 | A header in row 0 or 1 and texts in the rows 16, 31 and 46 are one entry; a text in any other row stands for itself |
| `Pages.MenusPassedOver` | ts-tests/common.ts:54-55 | A text of the menus makes no difference wherever it comes |
| `Pages.PaginateThenProcess` | ts-tests/common.ts:54-134 | Paginating prompts and reassembling any drawing of the pages gives back exactly the pages |

## Left out

- Parser library, block-stream library, prompt library: only the assumptions above are modelled.
- SHA-256, RIPEMD-160, Base64, key derivation, signing and the Bech32 checksum are function parameters, without cryptographic hypotheses beyond absent collisions among served blocks.
- Keys.DecodeSignature: stands for `cx_ecfp_decode_sig_der`, whose source is foreign; it reads the DER forms of positive integers with lengths below 128 and refuses others.
- SignApdu.Recognise: a block that is read again within the pass is not asked for again, because how the library re-reads a window is not in the repository.
- SignApdu.ShowTxn: the same for the prompting pass.
- SignApdu.Sign: the same; replies to repeated requests inside one pass are outside the step machine.
- Interp.Eval: whether the library parses or skips a second occurrence of a field is not a parameter; it is always parsed.
- Documents.DocumentReads: speaks of documents with every kept field once, whose values it names; missing and repeated fields, documents without a fee or with several bodies are the subject of `Transcript.TxnHands`, `Transcript.TranscriptConserved`, `Lines.NothingMissing` and `Telling.TranscriptTells`, which are for all bytes.
- Display.DocumentShown: the same; `Transcript.TranscriptConserved` is the statement for all bytes.
- Blind.DocumentSigned: the same; `Outcomes.ShownIsSigned` is the statement for all signed bytes.
- Legible.LinesOf: the same; `Lines.NothingMissing` is the statement for all bytes.
- Telling.ScreenTells: the same; `Telling.TranscriptTells` is the statement for all bytes.
- Transcript.KeptIn: what a record keeps of a repeated field is up to the library; every repetition is parsed and must be accepted.
- Blocks.Trace: blocks arrive whole; a host that has stopped answering leaves the request waiting.
- EventLoop.OnCommand: APDU transport, the table of header bytes for the six instructions (rust-app/src/interface.rs:18-42), status words, PUT_CHUNK and RESULT_ACCUMULATING, which the app does not use; what the parser of a malformed command answers; the reply to GetVersionStr, whose handler sends nothing.
- EventLoop.After: the person answers every request of a run by the same rule; how long a prompt is on the screen is not modelled.
- AppMain.Device: the `RefCell` borrow in the match scrutinee at rust-app/src/main_nanos.rs:88 spans the arm at line 98; the model takes the arm to clear the pending request as intended.
- AppMain.Device.OnButtonEvent: the busy menu is not reset on a cancel, as in the source, so nothing is claimed about the item it shows next.
- Menus.SettingsCell: the setting is a number, not a `u8`; only 0 and 1 are ever written.
- Decimals.GetAmountInDecimals: the empty input is excluded, since the source leaves its buffer on it; `Screen.HashText` gives no text for it.
- Pages.PaginatePrompts: the page pattern excludes line feed and carriage return, but not the other two Unicode line separators; texts are byte strings.
- The OCR repairs for the S+ emulator and the emulator automation in ts-tests/common.ts.
- SignerInfo, ModeInfo, Tip, multisig, MsgMultiSend and MsgBeginRedelegate: dropped or unused by the interpreter.
- Screen drawing, icons, paging inside scrollers, futures, pinning, transmutes, version and pending files, build and packaging.
