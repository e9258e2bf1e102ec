/** The Socket event data: its ABI encoding, the fast status slice, the status splice and the request key.
    The layout is that of the Solidity Contract ABI Specification, section "Formal Specification of the
    Encoding", for the one tuple argument of the Socket event. */
module SocketMessages {
  import opened Common
  import opened Positional

  const WORD := 32
  const STATUS_START := 128   // RBC_EVENT_STATUS_START_DATA_START_INDEX
  const STATUS_END := 160     // RBC_EVENT_STATUS_START_DATA_END_INDEX

  const MESSAGE_OFFSET := 32      // where the tuple starts
  const PARAMS_OFFSET := 224      // from there, where the task parameters start
  const VARIANTS_OFFSET := 192    // from there, where the variants start

  datatype TaskParams = TaskParams(token0: nat, token1: nat, refund: nat, to: nat, amount: nat, variants: seq<byte>)

  datatype SocketMessage = SocketMessage(
    chain: nat, round: nat, sequence: nat,      // the request id
    status: nat,
    dstChain: nat, instruction: nat,            // the instruction code
    params: TaskParams)

  // the widths of the ABI types, in bytes
  const INDEX_BYTES := 4        // a chain index
  const ROUND_BYTES := 8
  const ID_BYTES := 16          // a sequence number, an instruction
  const STATUS_BYTES := 1
  const ADDRESS_BYTES := 20

  predicate InRange(m: SocketMessage) {
    && m.chain < Pow(256, INDEX_BYTES) && m.round < Pow(256, ROUND_BYTES) && m.sequence < Pow(256, ID_BYTES)
    && m.status < Pow(256, STATUS_BYTES)
    && m.dstChain < Pow(256, INDEX_BYTES) && m.instruction < Pow(256, ID_BYTES)
    && m.params.token0 < Pow(256, WORD) && m.params.token1 < Pow(256, WORD)
    && m.params.refund < Pow(256, ADDRESS_BYTES) && m.params.to < Pow(256, ADDRESS_BYTES)
    && m.params.amount < Pow(256, WORD) && |m.params.variants| < Pow(256, WORD)
  }

  // ----- encoding -----

  function ZeroBytes(k: nat): (s: seq<byte>)
    ensures |s| == k
  {
    seq(k, _ => 0)
  }

  /** A number, right-aligned in its word. */
  function Word(n: nat): (w: seq<byte>)
    ensures |w| == WORD
  {
    Fixed(n, 256, WORD)
  }

  /** A bytesN value, left-aligned in its word. */
  function LeftWord(n: nat, size: nat): (w: seq<byte>)
    requires size <= WORD
    ensures |w| == WORD
  {
    Fixed(n, 256, size) + ZeroBytes(WORD - size)
  }

  /** The i-th word of the head: the offset of the tuple, its fields, and the fields and variant length of its last. */
  function WordAt(m: SocketMessage, i: nat): (w: seq<byte>)
    requires i < 15
    ensures |w| == WORD
  {
    if i < 8 then IdWordAt(m, i) else ParamsWordAt(m.params, i)
  }

  function IdWordAt(m: SocketMessage, i: nat): (w: seq<byte>)
    requires i < 8
    ensures |w| == WORD
  {
    if i == 0 then Word(MESSAGE_OFFSET)
    else if i == 1 then LeftWord(m.chain, INDEX_BYTES)
    else if i == 2 then Word(m.round)
    else if i == 3 then Word(m.sequence)
    else if i == 4 then Word(m.status)
    else if i == 5 then LeftWord(m.dstChain, INDEX_BYTES)
    else if i == 6 then LeftWord(m.instruction, ID_BYTES)
    else Word(PARAMS_OFFSET)
  }

  function ParamsWordAt(p: TaskParams, i: nat): (w: seq<byte>)
    requires 8 <= i < 15
    ensures |w| == WORD
  {
    if i == 8 then Word(p.token0)
    else if i == 9 then Word(p.token1)
    else if i == 10 then Word(p.refund)
    else if i == 11 then Word(p.to)
    else if i == 12 then Word(p.amount)
    else if i == 13 then Word(VARIANTS_OFFSET)
    else Word(|p.variants|)
  }

  function Words(m: SocketMessage): (ws: seq<seq<byte>>)
    ensures |ws| == 15 && AllWords(ws)
  {
    seq(15, i requires 0 <= i < 15 => WordAt(m, i))
  }

  predicate HeadLayout(ws: seq<seq<byte>>, m: SocketMessage) {
    && |ws| == 15
    && ws[0] == Word(MESSAGE_OFFSET)
    && ws[1] == LeftWord(m.chain, INDEX_BYTES) && ws[2] == Word(m.round) && ws[3] == Word(m.sequence)
    && ws[4] == Word(m.status)
    && ws[5] == LeftWord(m.dstChain, INDEX_BYTES) && ws[6] == LeftWord(m.instruction, ID_BYTES)
    && ws[7] == Word(PARAMS_OFFSET)
  }

  predicate ParamsLayout(ws: seq<seq<byte>>, p: TaskParams) {
    && |ws| == 15
    && ws[8] == Word(p.token0) && ws[9] == Word(p.token1)
    && ws[10] == Word(p.refund) && ws[11] == Word(p.to) && ws[12] == Word(p.amount)
    && ws[13] == Word(VARIANTS_OFFSET)
    && ws[14] == Word(|p.variants|)
  }

  predicate HasLayout(ws: seq<seq<byte>>, m: SocketMessage) {
    HeadLayout(ws, m) && ParamsLayout(ws, m.params)
  }

  lemma HeadOfWords(m: SocketMessage)
    ensures HeadLayout(Words(m), m)
  {
  }

  lemma ParamsOfWords(m: SocketMessage)
    ensures ParamsLayout(Words(m), m.params)
  {
  }

  predicate AllWords(ws: seq<seq<byte>>) {
    forall i {:trigger ws[i]} :: 0 <= i < |ws| ==> |ws[i]| == WORD
  }

  function Flat(ws: seq<seq<byte>>): (s: seq<byte>)
    requires AllWords(ws)
    ensures |s| == WORD * |ws|
  {
    if ws == [] then [] else Flat(ws[..|ws| - 1]) + ws[|ws| - 1]
  }

  function Padding(n: nat): (s: seq<byte>) {
    ZeroBytes((WORD - n % WORD) % WORD)
  }

  function Tail(m: SocketMessage): seq<byte> {
    m.params.variants + Padding(|m.params.variants|)
  }

  function Encode(m: SocketMessage): (data: seq<byte>)
    ensures |data| >= WORD * 15
  {
    Flat(Words(m)) + Tail(m)
  }

  // ----- decoding: the offsets are followed, the widths and the padding are checked -----

  function ReadWord(data: seq<byte>, at: nat): Result<seq<byte>> {
    if at + WORD <= |data| then Ok(data[at..at + WORD]) else Raised(ValueError)
  }

  function ReadUint(data: seq<byte>, at: nat, size: nat): Result<nat> {
    var w :- ReadWord(data, at);
    if Value(w, 256) < Pow(256, size) then Ok(Value(w, 256)) else Raised(ValueError)
  }

  function ReadBytesN(data: seq<byte>, at: nat, size: nat): Result<nat> {
    var w :- ReadWord(data, at);
    if size <= |w| == WORD && w[size..] == ZeroBytes(WORD - size) then Ok(Value(w[..size], 256)) else Raised(ValueError)
  }

  function ReadBytes(data: seq<byte>, at: nat): Result<seq<byte>> {
    var n :- ReadUint(data, at, WORD);
    var start := at + WORD;
    if start + n + |Padding(n)| <= |data| && data[start + n..start + n + |Padding(n)|] == Padding(n)
    then Ok(data[start..start + n])
    else Raised(ValueError)
  }

  /** The three ABI readers over one record. */
  datatype Reader = Reader(
    uint: (nat, nat) -> Result<nat>,
    bytesN: (nat, nat) -> Result<nat>,
    bytes: nat -> Result<seq<byte>>)

  function ReaderOf(data: seq<byte>): Reader {
    Reader(
      (at: nat, size: nat) => ReadUint(data, at, size),
      (at: nat, size: nat) => ReadBytesN(data, at, size),
      (at: nat) => ReadBytes(data, at))
  }

  function DecodeParams(r: Reader, at: nat): Result<TaskParams> {
    var token0 :- r.uint(at, WORD);
    var token1 :- r.uint(at + WORD, WORD);
    var refund :- r.uint(at + 2 * WORD, ADDRESS_BYTES);
    var to :- r.uint(at + 3 * WORD, ADDRESS_BYTES);
    var amount :- r.uint(at + 4 * WORD, WORD);
    var offset :- r.uint(at + 5 * WORD, WORD);
    var variants :- r.bytes(at + offset);
    Ok(TaskParams(token0, token1, refund, to, amount, variants))
  }

  function DecodeWith(r: Reader): Result<SocketMessage> {
    var at :- r.uint(0, WORD);
    var chain :- r.bytesN(at, INDEX_BYTES);
    var round :- r.uint(at + WORD, ROUND_BYTES);
    var sequence :- r.uint(at + 2 * WORD, ID_BYTES);
    var status :- r.uint(at + 3 * WORD, STATUS_BYTES);
    var dstChain :- r.bytesN(at + 4 * WORD, INDEX_BYTES);
    var instruction :- r.bytesN(at + 5 * WORD, ID_BYTES);
    var offset :- r.uint(at + 6 * WORD, WORD);
    var params :- DecodeParams(r, at + offset);
    Ok(SocketMessage(chain, round, sequence, status, dstChain, instruction, params))
  }

  function Decode(data: seq<byte>): Result<SocketMessage> {
    DecodeWith(ReaderOf(data))
  }

  lemma InPrefix<T>(x: seq<T>, y: seq<T>, i: nat, j: nat)
    requires i <= j <= |x|
    ensures (x + y)[i..j] == x[i..j]
  {
  }

  lemma {:induction false} FlatAt(ws: seq<seq<byte>>, k: nat)
    requires AllWords(ws) && k < |ws|
    ensures Flat(ws)[WORD * k..WORD * k + WORD] == ws[k]
  {
    var init := ws[..|ws| - 1];
    if k < |ws| - 1 {
      FlatAt(init, k);
      InPrefix(Flat(init), ws[|ws| - 1], WORD * k, WORD * k + WORD);
    }
  }

  /** data starts with these words. */
  predicate HasWords(data: seq<byte>, ws: seq<seq<byte>>) {
    forall k {:trigger ws[k]} :: 0 <= k < |ws| ==> ReadWord(data, WORD * k) == Ok(ws[k])
  }

  lemma EncodeHasWords(m: SocketMessage)
    ensures HasWords(Encode(m), Words(m))
  {
    FlatHasWords(Words(m), Tail(m));
  }

  lemma FlatHasWords(ws: seq<seq<byte>>, tail: seq<byte>)
    requires AllWords(ws)
    ensures HasWords(Flat(ws) + tail, ws)
  {
    forall k | 0 <= k < |ws|
      ensures ReadWord(Flat(ws) + tail, WORD * k) == Ok(ws[k])
    {
      FlatAt(ws, k);
      InPrefix(Flat(ws), tail, WORD * k, WORD * k + WORD);
    }
  }

  lemma UintAt(data: seq<byte>, ws: seq<seq<byte>>, k: nat, n: nat, size: nat)
    requires HasWords(data, ws) && k < |ws| && ws[k] == Word(n) && size <= WORD && n < Pow(256, size)
    ensures ReaderOf(data).uint(WORD * k, size) == Ok(n)
  {
    WordValue(n, size);
    UintOf(data, WORD * k, ws[k], n, size);
  }

  lemma UintOf(data: seq<byte>, at: nat, w: seq<byte>, n: nat, size: nat)
    requires ReadWord(data, at) == Ok(w) && Value(w, 256) == n < Pow(256, size)
    ensures ReaderOf(data).uint(at, size) == Ok(n)
  {
  }

  lemma WordValue(n: nat, size: nat)
    requires size <= WORD && n < Pow(256, size)
    ensures Value(Word(n), 256) == n
  {
    PowMonotone(256, size, WORD);
    ValueFixed(n, 256, WORD);
  }

  lemma BytesNAt(data: seq<byte>, ws: seq<seq<byte>>, k: nat, n: nat, size: nat)
    requires HasWords(data, ws) && k < |ws| && size <= WORD && ws[k] == LeftWord(n, size) && n < Pow(256, size)
    ensures ReaderOf(data).bytesN(WORD * k, size) == Ok(n)
  {
    ValueFixed(n, 256, size);
    var digits := Fixed(n, 256, size);
    assert ws[k][..size] == digits && ws[k][size..] == ZeroBytes(WORD - size);
    BytesNOf(data, WORD * k, ws[k], digits, size);
  }

  lemma BytesNOf(data: seq<byte>, at: nat, w: seq<byte>, digits: seq<nat>, size: nat)
    requires ReadWord(data, at) == Ok(w) && size <= |w| == WORD
    requires w[..size] == digits && w[size..] == ZeroBytes(WORD - size)
    ensures ReaderOf(data).bytesN(at, size) == Ok(Value(digits, 256))
  {
  }

  lemma VariantsAt(m: SocketMessage)
    requires |m.params.variants| < Pow(256, WORD)
    ensures ReaderOf(Encode(m)).bytes(WORD * 14) == Ok(m.params.variants)
  {
    EncodeHasWords(m);
    UintAt(Encode(m), Words(m), 14, |m.params.variants|, WORD);
    BytesAfter(Flat(Words(m)), m.params.variants);
  }

  lemma BytesAfter(front: seq<byte>, v: seq<byte>)
    requires |front| >= WORD && ReadUint(front + (v + Padding(|v|)), |front| - WORD, WORD) == Ok(|v|)
    ensures ReadBytes(front + (v + Padding(|v|)), |front| - WORD) == Ok(v)
  {
    var data := front + (v + Padding(|v|));
    assert data[|front|..|front| + |v|] == v;
    assert data[|front| + |v|..|front| + |v| + |Padding(|v|)|] == Padding(|v|);
  }

  lemma SmallOffsets()
    ensures 32 < Pow(256, WORD) && 224 < Pow(256, WORD) && 192 < Pow(256, WORD)
  {
    PowMonotone(256, 1, WORD);
    assert Pow(256, 1) == 256 * Pow(256, 0);
  }

  /** What the readers must return along the encoding of m. */
  predicate ReadsId(r: Reader, m: SocketMessage) {
    r.uint(0, 32) == Ok(32) && r.bytesN(32, 4) == Ok(m.chain) && r.uint(64, 8) == Ok(m.round)
  }

  predicate ReadsStatus(r: Reader, m: SocketMessage) {
    r.uint(96, 16) == Ok(m.sequence) && r.uint(128, 1) == Ok(m.status)
  }

  predicate ReadsInstruction(r: Reader, m: SocketMessage) {
    && r.bytesN(160, 4) == Ok(m.dstChain) && r.bytesN(192, 16) == Ok(m.instruction)
    && r.uint(224, 32) == Ok(224)
  }

  predicate ReadsAssets(r: Reader, p: TaskParams) {
    r.uint(256, 32) == Ok(p.token0) && r.uint(288, 32) == Ok(p.token1) && r.uint(320, 20) == Ok(p.refund)
  }

  predicate ReadsRest(r: Reader, p: TaskParams) {
    && r.uint(352, 20) == Ok(p.to) && r.uint(384, 32) == Ok(p.amount)
    && r.uint(416, 32) == Ok(192)
  }

  lemma IdReads(m: SocketMessage, data: seq<byte>, ws: seq<seq<byte>>)
    requires InRange(m) && HasWords(data, ws) && HasLayout(ws, m)
    ensures ReadsId(ReaderOf(data), m)
  {
    SmallOffsets();
    UintAt(data, ws, 0, MESSAGE_OFFSET, WORD);
    BytesNAt(data, ws, 1, m.chain, INDEX_BYTES);
    UintAt(data, ws, 2, m.round, ROUND_BYTES);
  }

  lemma StatusReads(m: SocketMessage, data: seq<byte>, ws: seq<seq<byte>>)
    requires InRange(m) && HasWords(data, ws) && HasLayout(ws, m)
    ensures ReadsStatus(ReaderOf(data), m)
  {
    UintAt(data, ws, 3, m.sequence, ID_BYTES);
    UintAt(data, ws, 4, m.status, STATUS_BYTES);
  }

  lemma InstructionReads(m: SocketMessage, data: seq<byte>, ws: seq<seq<byte>>)
    requires InRange(m) && HasWords(data, ws) && HasLayout(ws, m)
    ensures ReadsInstruction(ReaderOf(data), m)
  {
    SmallOffsets();
    BytesNAt(data, ws, 5, m.dstChain, INDEX_BYTES);
    BytesNAt(data, ws, 6, m.instruction, ID_BYTES);
    UintAt(data, ws, 7, PARAMS_OFFSET, WORD);
  }

  lemma AssetsRead(m: SocketMessage, data: seq<byte>, ws: seq<seq<byte>>)
    requires InRange(m) && HasWords(data, ws) && HasLayout(ws, m)
    ensures ReadsAssets(ReaderOf(data), m.params)
  {
    UintAt(data, ws, 8, m.params.token0, WORD);
    UintAt(data, ws, 9, m.params.token1, WORD);
    UintAt(data, ws, 10, m.params.refund, ADDRESS_BYTES);
  }

  lemma RestReads(m: SocketMessage, data: seq<byte>, ws: seq<seq<byte>>)
    requires InRange(m) && HasWords(data, ws) && HasLayout(ws, m)
    ensures ReadsRest(ReaderOf(data), m.params)
  {
    SmallOffsets();
    UintAt(data, ws, 11, m.params.to, ADDRESS_BYTES);
    UintAt(data, ws, 12, m.params.amount, WORD);
    UintAt(data, ws, 13, VARIANTS_OFFSET, WORD);
  }

  lemma DecodesFrom(r: Reader, m: SocketMessage)
    requires ReadsId(r, m) && ReadsStatus(r, m) && ReadsInstruction(r, m)
    requires ReadsAssets(r, m.params) && ReadsRest(r, m.params) && r.bytes(448) == Ok(m.params.variants)
    ensures DecodeWith(r) == Ok(m)
  {
  }

  /** The full ABI decode gives the encoded message back. */
  lemma DecodeEncode(m: SocketMessage)
    requires InRange(m)
    ensures Decode(Encode(m)) == Ok(m)
  {
    var data := Encode(m);
    EncodeHasWords(m);
    HeadOfWords(m);
    ParamsOfWords(m);
    IdReads(m, data, Words(m));
    StatusReads(m, data, Words(m));
    InstructionReads(m, data, Words(m));
    AssetsRead(m, data, Words(m));
    RestReads(m, data, Words(m));
    VariantsAt(m);
    DecodesFrom(ReaderOf(Encode(m)), m);
  }

  // ----- the fast parse and the splice -----

  /** status_data.int(): the slice that RbcEvent.init reads. */
  function FastStatus(data: seq<byte>): nat {
    Value(PySlice(data, STATUS_START, STATUS_END), 256)
  }

  /** RbcEvent.change_status_of_data. */
  function ChangeStatus(data: seq<byte>, status: nat): seq<byte> {
    PySlice(data, 0, STATUS_START) + Word(status) + (if |data| <= STATUS_END then [] else data[STATUS_END..])
  }

  lemma FastStatusOf(m: SocketMessage)
    requires InRange(m)
    ensures FastStatus(Encode(m)) == m.status
  {
    EncodeHasWords(m);
    PowMonotone(256, 1, WORD);
    ValueFixed(m.status, 256, WORD);
    FastStatusOfWord(Encode(m), Words(m)[4]);
  }

  lemma FastStatusOfWord(data: seq<byte>, w: seq<byte>)
    requires ReadWord(data, WORD * 4) == Ok(w)
    ensures FastStatus(data) == Value(w, 256)
  {
    assert PySlice(data, STATUS_START, STATUS_END) == data[STATUS_START..STATUS_END];
  }

  /** On every encoded message the slice is the decoded status. */
  lemma FastParseIsDecodedStatus(m: SocketMessage)
    requires InRange(m)
    ensures Decode(Encode(m)).Ok? && FastStatus(Encode(m)) == Decode(Encode(m)).value.status
  {
    DecodeEncode(m);
    FastStatusOf(m);
  }

  lemma SpliceEncoded(m: SocketMessage, status: nat)
    ensures ChangeStatus(Encode(m), status) == Encode(m.(status := status))
  {
    WordsUpdate(m, status);
    SpliceFlat(Words(m), Tail(m), status);
  }

  lemma WordsUpdate(m: SocketMessage, status: nat)
    ensures Words(m.(status := status)) == Words(m)[4 := Word(status)]
  {
    var n := m.(status := status);
    forall i | 0 <= i < 15 ensures WordAt(n, i) == if i == 4 then Word(status) else WordAt(m, i) {}
  }

  lemma SpliceFlat(ws: seq<seq<byte>>, tail: seq<byte>, status: nat)
    requires AllWords(ws) && |ws| > 4
    ensures AllWords(ws[4 := Word(status)])
    ensures ChangeStatus(Flat(ws) + tail, status) == Flat(ws[4 := Word(status)]) + tail
  {
    FlatUpdate(ws, 4, Word(status));
    SpliceShape(Flat(ws) + tail, status);
    assert (Flat(ws) + tail)[..STATUS_START] == Flat(ws)[..STATUS_START];
    assert (Flat(ws) + tail)[STATUS_END..] == Flat(ws)[STATUS_END..] + tail;
  }

  /** Splicing bytes is updating one decoded field and nothing else. */
  lemma SpliceIsFieldUpdate(m: SocketMessage, status: nat)
    requires InRange(m) && status < Pow(256, STATUS_BYTES)
    ensures ChangeStatus(Encode(m), status) == Encode(m.(status := status))
    ensures Decode(ChangeStatus(Encode(m), status)) == Ok(m.(status := status))
  {
    SpliceEncoded(m, status);
    assert InRange(m.(status := status));
    DecodeEncode(m.(status := status));
  }

  lemma {:induction false} FlatUpdate(ws: seq<seq<byte>>, k: nat, w: seq<byte>)
    requires AllWords(ws) && k < |ws| && |w| == WORD
    ensures AllWords(ws[k := w])
    ensures Flat(ws[k := w]) == Flat(ws)[..WORD * k] + w + Flat(ws)[WORD * k + WORD..]
  {
    var init, vs := ws[..|ws| - 1], ws[k := w];
    if k < |ws| - 1 {
      FlatUpdate(init, k, w);
      assert vs[..|ws| - 1] == init[k := w];
    } else {
      assert vs[..|ws| - 1] == init;
    }
  }

  /** The splice on any record, ABI-encoded or not: what it keeps, what it sets, and which write wins. */
  lemma SpliceLaws(data: seq<byte>, s: nat, t: nat)
    requires |data| >= STATUS_END && s < Pow(256, WORD)
    ensures |ChangeStatus(data, s)| == |data| && FastStatus(ChangeStatus(data, s)) == s
    ensures forall i :: 0 <= i < |data| && !(STATUS_START <= i < STATUS_END) ==> ChangeStatus(data, s)[i] == data[i]
    ensures ChangeStatus(ChangeStatus(data, s), t) == ChangeStatus(data, t)
    ensures ChangeStatus(data, FastStatus(data)) == data
  {
    SpliceShape(data, s);
    SpliceShape(data, t);
    var d := ChangeStatus(data, s);
    assert PySlice(d, STATUS_START, STATUS_END) == Word(s);
    ValueFixed(s, 256, WORD);
    SpliceShape(d, t);
    SpliceJoins(data, data);
  }

  lemma SpliceShape(data: seq<byte>, s: nat)
    requires |data| >= STATUS_END
    ensures ChangeStatus(data, s) == data[..STATUS_START] + Word(s) + data[STATUS_END..]
    ensures |ChangeStatus(data, s)| == |data|
    ensures ChangeStatus(data, s)[..STATUS_START] == data[..STATUS_START]
    ensures ChangeStatus(data, s)[STATUS_END..] == data[STATUS_END..]
    ensures forall i :: 0 <= i < |data| && !(STATUS_START <= i < STATUS_END) ==> ChangeStatus(data, s)[i] == data[i]
  {
  }

  /** Two records that agree outside the status word become equal once their statuses are. */
  lemma SpliceJoins(x: seq<byte>, y: seq<byte>)
    requires |x| == |y| >= STATUS_END
    requires forall i :: 0 <= i < |x| && !(STATUS_START <= i < STATUS_END) ==> x[i] == y[i]
    ensures ChangeStatus(x, FastStatus(y)) == y
  {
    OwnWord(y);
    SpliceShape(x, FastStatus(y));
    assert x[..STATUS_START] == y[..STATUS_START] && x[STATUS_END..] == y[STATUS_END..];
    assert y == y[..STATUS_START] + y[STATUS_START..STATUS_END] + y[STATUS_END..];
  }

  lemma OwnWord(y: seq<byte>)
    requires |y| >= STATUS_END
    ensures Word(FastStatus(y)) == y[STATUS_START..STATUS_END]
  {
    FixedValue(y[STATUS_START..STATUS_END], 256);
    assert PySlice(y, STATUS_START, STATUS_END) == y[STATUS_START..STATUS_END];
  }

  // ----- request keys and chain primitives -----

  /** req_id_concat_bytes: chain, round and sequence at 4, 16 and 16 bytes. */
  function RequestKey(m: SocketMessage): seq<byte> {
    Fixed(m.chain, 256, INDEX_BYTES) + Fixed(m.round, 256, ID_BYTES) + Fixed(m.sequence, 256, ID_BYTES)
  }

  predicate SameRequest(m: SocketMessage, n: SocketMessage) {
    m.chain == n.chain && m.round == n.round && m.sequence == n.sequence
  }

  lemma RequestKeyInjective(m: SocketMessage, n: SocketMessage)
    requires InRange(m) && InRange(n)
    ensures RequestKey(m) == RequestKey(n) <==> SameRequest(m, n)
  {
    if RequestKey(m) == RequestKey(n) {
      KeyParts(m);
      KeyParts(n);
      PowMonotone(256, ROUND_BYTES, ID_BYTES);
      FixedInjective(m.chain, n.chain, 256, INDEX_BYTES);
      FixedInjective(m.round, n.round, 256, ID_BYTES);
      FixedInjective(m.sequence, n.sequence, 256, ID_BYTES);
    }
  }

  lemma KeyParts(m: SocketMessage)
    ensures var key := RequestKey(m);
            && |key| == 36 && key[..4] == Fixed(m.chain, 256, INDEX_BYTES)
            && key[4..20] == Fixed(m.round, 256, ID_BYTES) && key[20..] == Fixed(m.sequence, 256, ID_BYTES)
  {
  }

  /** ChainPrimitive.from_bytes on the members of the enum. */
  function ChainFromBytes(members: set<nat>, bytes: seq<byte>): Result<nat> {
    if |bytes| != INDEX_BYTES then Raised(Refused)
    else if Value(bytes, 256) in members then Ok(Value(bytes, 256))
    else Raised(ValueError)
  }

  /** formatted_bytes and from_bytes are inverse on the members; no other four bytes are accepted. */
  lemma ChainRoundTrip(members: set<nat>, bytes: seq<byte>, chain: nat)
    requires forall c <- members :: c < Pow(256, 4)
    ensures chain in members ==> ChainFromBytes(members, Fixed(chain, 256, 4)) == Ok(chain)
    ensures ChainFromBytes(members, bytes) == Ok(chain) <==> chain in members && bytes == Fixed(chain, 256, 4)
  {
    if chain in members { ValueFixed(chain, 256, INDEX_BYTES); }
    FixedValue(bytes, 256);
  }
}
