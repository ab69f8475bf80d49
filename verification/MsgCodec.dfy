/** The wire formats: sale and grant messages, and the 40-byte token transfer. */
module MsgCodec {
  import opened Prelude
  import opened GrsTypes

  type Bytes = seq<Byte>

  const SALE_MSG_LEN: nat := 192
  const GRANT_MSG_LEN: nat := 224
  const OFT_MSG_LEN: nat := 40

  /** keccak256("GRS.sale") */
  const SALE_TYPE: Key := [
    0x9a, 0xd0, 0x4f, 0x5e, 0x83, 0x38, 0x4a, 0x6d, 0x14, 0x3d, 0xcd, 0xba, 0xb3, 0xe4, 0x98, 0xbd,
    0xe0, 0x25, 0x7b, 0xcd, 0xd7, 0x78, 0x06, 0x84, 0x3b, 0x0c, 0x11, 0x5c, 0xbe, 0xf6, 0x5b, 0xe9]

  /** keccak256("GRS.grant") */
  const GRANT_TYPE: Key := [
    0x8b, 0x42, 0x7b, 0xa0, 0xee, 0xaa, 0x0e, 0x85, 0xa3, 0xbc, 0x8d, 0xec, 0xe1, 0x67, 0x61, 0x56,
    0x4e, 0xa9, 0xc7, 0xba, 0x4d, 0x8b, 0xf9, 0x76, 0x35, 0xc7, 0x5c, 0x78, 0x96, 0x17, 0xc7, 0x73]

  datatype SaleMsg = SaleMsg(id: U64, asset: Key, assetAmount: U64, grsAmount: U64, recipient: Key)

  datatype GrantMsg = GrantMsg(to: Key, amount: U64, start: U64, cliff: U64, duration: U64, bucket: U64)

  // ----- big-endian words

  /** The `n` low bytes of `v`, most significant first. */
  function BigEndian(v: nat, n: nat): (b: Bytes)
    ensures |b| == n
  {
    if n == 0 then [] else BigEndian(v / 256, n - 1) + [v % 256]
  }

  function Value(b: Bytes): nat {
    if b == [] then 0 else Value(b[..|b| - 1]) * 256 + b[|b| - 1]
  }

  /** A 64-bit number in a 32-byte word. */
  function Word(v: nat): (w: Key) {
    ZEROS(24) + BigEndian(v, 8)
  }

  function WordValue(word: Bytes): Result<U64, GrsError> {
    if |word| != 32 then Err(InvalidSaleMessage)
    else if word[..24] != ZEROS(24) then Err(InvalidSaleMessage)
    else
      EightByteValue(word[24..]);
      Ok(Value(word[24..]))
  }

  // ----- messages

  predicate IsSale(message: Bytes) {
    |message| == SALE_MSG_LEN && message[..32] == SALE_TYPE
  }

  predicate IsGrant(message: Bytes) {
    |message| == GRANT_MSG_LEN && message[..32] == GRANT_TYPE
  }

  /** The sale message, in shared units. */
  function SaleBytes(s: SaleMsg): Bytes {
    SALE_TYPE + Word(s.id) + s.asset + Word(s.assetAmount) + Word(s.grsAmount / LD2SD_RATE) + s.recipient
  }

  function GrantBytes(g: GrantMsg): Bytes {
    GRANT_TYPE + g.to + Word(g.amount / LD2SD_RATE) + Word(g.start) + Word(g.cliff) + Word(g.duration) + Word(g.bucket)
  }

  /** The token transfer; a compose message brings the sender along. */
  function TransferBytes(to: Key, amountSD: U64, sender: Key, compose: Option<Bytes>): Bytes {
    to + BigEndian(amountSD, 8) + (if compose.Some? then sender + compose.value else [])
  }

  method EncodeSale(id: U64, asset: Key, assetAmount: U64, grsAmount: U64, recipient: Key) returns (encoded: Bytes)
    ensures encoded == SaleBytes(SaleMsg(id, asset, assetAmount, grsAmount, recipient))
  {
    encoded := [];
    encoded := encoded + SALE_TYPE;
    encoded := encoded + Word(id);
    encoded := encoded + asset;
    encoded := encoded + Word(assetAmount);
    encoded := encoded + Word(grsAmount / LD2SD_RATE);
    encoded := encoded + recipient;
  }

  method EncodeGrant(to: Key, amount: U64, start: U64, cliff: U64, duration: U64, bucket: U64) returns (encoded: Bytes)
    ensures encoded == GrantBytes(GrantMsg(to, amount, start, cliff, duration, bucket))
  {
    encoded := [];
    encoded := encoded + GRANT_TYPE;
    encoded := encoded + to;
    encoded := encoded + Word(amount / LD2SD_RATE);
    encoded := encoded + Word(start);
    encoded := encoded + Word(cliff);
    encoded := encoded + Word(duration);
    encoded := encoded + Word(bucket);
  }

  method Encode(to: Key, amountSD: U64, sender: Key, compose: Option<Bytes>) returns (encoded: Bytes)
    ensures encoded == TransferBytes(to, amountSD, sender, compose)
  {
    encoded := [];
    encoded := encoded + to;
    encoded := encoded + BigEndian(amountSD, 8);
    if compose.Some? {
      encoded := encoded + sender;
      encoded := encoded + compose.value;
    }
  }

  function DecodeSale(message: Bytes): Result<SaleMsg, GrsError> {
    if !IsSale(message) then Err(InvalidSaleMessage)
    else
      var id :- WordValue(message[32..64]);
      if id == 0 then Err(InvalidSaleMessage)
      else
        var assetAmount :- WordValue(message[96..128]);
        var grsSD :- WordValue(message[128..160]);
        if grsSD * LD2SD_RATE > U64_MAX then Err(InvalidSaleMessage)
        else Ok(SaleMsg(id, message[64..96], assetAmount, grsSD * LD2SD_RATE, message[160..192]))
  }

  function DecodeGrant(message: Bytes): Result<GrantMsg, GrsError> {
    if !IsGrant(message) then Err(InvalidSaleMessage)
    else
      var amountSD :- WordValue(message[64..96]);
      if amountSD * LD2SD_RATE > U64_MAX then Err(InvalidSaleMessage)
      else
        var start :- WordValue(message[96..128]);
        var cliff :- WordValue(message[128..160]);
        var duration :- WordValue(message[160..192]);
        var bucket :- WordValue(message[192..224]);
        if bucket > 11 then Err(InvalidSaleMessage)
        else Ok(GrantMsg(message[32..64], amountSD * LD2SD_RATE, start, cliff, duration, bucket))
  }

  function SendTo(message: Bytes): Key
    requires |message| >= OFT_MSG_LEN
  {
    message[..32]
  }

  function AmountSD(message: Bytes): U64
    requires |message| >= OFT_MSG_LEN
  {
    EightByteValue(message[32..40]);
    Value(message[32..40])
  }

  function ComposeMsg(message: Bytes): Option<Bytes> {
    if IsSale(message) || IsGrant(message) then None
    else if |message| > OFT_MSG_LEN then Some(message[OFT_MSG_LEN..])
    else None
  }

  // ----- numbers survive

  function Pow256(n: nat): nat {
    if n == 0 then 1 else 256 * Pow256(n - 1)
  }

  lemma EightBytes()
    ensures Pow256(8) == U64_MAX + 1
  {
    assert Pow256(4) == 0x1_0000_0000;
    assert Pow256(8) == 256 * 256 * 256 * 256 * Pow256(4);
  }

  lemma {:induction false} ValueOfBytes(v: nat, n: nat)
    requires v < Pow256(n)
    ensures Value(BigEndian(v, n)) == v
  {
    if n > 0 {
      ValueOfBytes(v / 256, n - 1);
      var b := BigEndian(v, n);
      assert b[..|b| - 1] == BigEndian(v / 256, n - 1) && b[|b| - 1] == v % 256;
    }
  }

  lemma {:induction false} BytesOfValue(b: Bytes)
    ensures Value(b) < Pow256(|b|) && BigEndian(Value(b), |b|) == b
  {
    if b != [] {
      var high, low := b[..|b| - 1], b[|b| - 1];
      BytesOfValue(high);
      assert Value(b) / 256 == Value(high) && Value(b) % 256 == low;
      assert b == high + [low];
    }
  }

  lemma EightByteValue(b: Bytes)
    requires |b| == 8
    ensures Value(b) <= U64_MAX
  {
    EightBytes();
    BytesOfValue(b);
  }

  lemma WordRoundTrip(v: U64)
    ensures WordValue(Word(v)) == Ok(v)
  {
    EightBytes();
    ValueOfBytes(v, 8);
    var w: Bytes := Word(v);
    assert w[..24] == ZEROS(24) && w[24..] == BigEndian(v, 8);
  }

  lemma WordAccepted(word: Bytes)
    requires WordValue(word).Ok?
    ensures word == Word(WordValue(word).value)
  {
    EightBytes();
    BytesOfValue(word[24..]);
    assert word == word[..24] + word[24..];
  }

  // ----- messages survive

  lemma SixFields(a: Key, b: Key, c: Key, d: Key, e: Key, f: Key)
    ensures var m: Bytes := a + b + c + d + e + f;
            && |m| == 192 && m[..32] == a && m[32..64] == b && m[64..96] == c && m[96..128] == d
            && m[128..160] == e && m[160..192] == f
  {
  }

  lemma SevenFields(a: Key, b: Key, c: Key, d: Key, e: Key, f: Key, g: Key)
    ensures var m: Bytes := a + b + c + d + e + f + g;
            && |m| == 224 && m[..32] == a && m[32..64] == b && m[64..96] == c && m[96..128] == d
            && m[128..160] == e && m[160..192] == f && m[192..224] == g
  {
    SixFields(a, b, c, d, e, f);
    var m: Bytes := a + b + c + d + e + f;
    var n: Bytes := m + g;
    assert forall i, j :: 0 <= i <= j <= 192 ==> n[i..j] == m[i..j];
    assert n[192..224] == g;
  }

  /** Any sale with 64-bit figures arrives as it was sent, less the dust below a shared unit; id 0 never arrives. */
  lemma SaleRoundTrip(s: SaleMsg)
    ensures IsSale(SaleBytes(s)) && !IsGrant(SaleBytes(s))
    ensures DecodeSale(SaleBytes(s))
         == if s.id == 0 then Err(InvalidSaleMessage) else Ok(s.(grsAmount := s.grsAmount - s.grsAmount % LD2SD_RATE))
  {
    hide Word, WordValue;
    SixFields(SALE_TYPE, Word(s.id), s.asset, Word(s.assetAmount), Word(s.grsAmount / LD2SD_RATE), s.recipient);
    WordRoundTrip(s.id);
    WordRoundTrip(s.assetAmount);
    WordRoundTrip(s.grsAmount / LD2SD_RATE);
    assert s.grsAmount / LD2SD_RATE * LD2SD_RATE == s.grsAmount - s.grsAmount % LD2SD_RATE;
  }

  /** Every accepted sale message is the encoding of what it decodes to: there is one message per sale. */
  lemma SaleAccepted(message: Bytes)
    requires DecodeSale(message).Ok?
    ensures var s := DecodeSale(message).value;
            && SaleBytes(s) == message && s.id > 0 && s.grsAmount % LD2SD_RATE == 0
  {
    WordAccepted(message[32..64]);
    WordAccepted(message[96..128]);
    WordAccepted(message[128..160]);
    hide Word, WordValue;
    assert message == message[..32] + message[32..64] + message[64..96] + message[96..128] + message[128..160]
                      + message[160..192];
  }

  /** A grant arrives as it was sent, less the dust, exactly if its bucket is one of the twelve. */
  lemma GrantRoundTrip(g: GrantMsg)
    ensures IsGrant(GrantBytes(g)) && !IsSale(GrantBytes(g))
    ensures DecodeGrant(GrantBytes(g))
         == if g.bucket > 11 then Err(InvalidSaleMessage) else Ok(g.(amount := g.amount - g.amount % LD2SD_RATE))
  {
    hide Word, WordValue;
    SevenFields(GRANT_TYPE, g.to, Word(g.amount / LD2SD_RATE), Word(g.start), Word(g.cliff), Word(g.duration),
                Word(g.bucket));
    WordRoundTrip(g.amount / LD2SD_RATE);
    WordRoundTrip(g.start);
    WordRoundTrip(g.cliff);
    WordRoundTrip(g.duration);
    WordRoundTrip(g.bucket);
    assert g.amount / LD2SD_RATE * LD2SD_RATE == g.amount - g.amount % LD2SD_RATE;
  }

  lemma SevenSlices(m: Bytes)
    requires |m| == GRANT_MSG_LEN
    ensures m == m[..32] + m[32..64] + m[64..96] + m[96..128] + m[128..160] + m[160..192] + m[192..224]
  {
    var head := m[..192];
    assert head == head[..32] + head[32..64] + head[64..96] + head[96..128] + head[128..160] + head[160..192];
    assert m == head + m[192..224];
  }

  /** What an accepted grant was read from. */
  lemma GrantFields(message: Bytes)
    requires DecodeGrant(message).Ok?
    ensures var g := DecodeGrant(message).value;
            && |message| == GRANT_MSG_LEN && message[..32] == GRANT_TYPE && g.to == message[32..64] && g.bucket <= 11
            && WordValue(message[64..96]).Ok? && g.amount == WordValue(message[64..96]).value * LD2SD_RATE
            && WordValue(message[96..128]) == Ok(g.start) && WordValue(message[128..160]) == Ok(g.cliff)
            && WordValue(message[160..192]) == Ok(g.duration) && WordValue(message[192..224]) == Ok(g.bucket)
  {
    hide WordValue;
  }

  lemma GrantAccepted(message: Bytes)
    requires DecodeGrant(message).Ok?
    ensures var g := DecodeGrant(message).value;
            GrantBytes(g) == message && g.amount % LD2SD_RATE == 0 && g.bucket <= 11
  {
    var g := DecodeGrant(message).value;
    GrantFields(message);
    hide *;
    var amountSD := WordValue(message[64..96]).value;
    WordAccepted(message[64..96]);
    WordAccepted(message[96..128]);
    WordAccepted(message[128..160]);
    WordAccepted(message[160..192]);
    WordAccepted(message[192..224]);
    SevenSlices(message);
    GrantBytesAre(g, amountSD);
  }

  lemma GrantBytesAre(g: GrantMsg, amountSD: U64)
    requires g.amount == amountSD * LD2SD_RATE
    ensures GrantBytes(g) == GRANT_TYPE + g.to + Word(amountSD) + Word(g.start) + Word(g.cliff) + Word(g.duration)
                             + Word(g.bucket)
    ensures g.amount % LD2SD_RATE == 0
  {
    hide Word;
    assert g.amount / LD2SD_RATE == amountSD;
  }

  /** A plain transfer is 40 bytes, carries its recipient and amount, and is never taken for a sale or a grant. */
  lemma TransferRoundTrip(to: Key, amountSD: U64, sender: Key)
    ensures var m := TransferBytes(to, amountSD, sender, None);
            && |m| == OFT_MSG_LEN && SendTo(m) == to && AmountSD(m) == amountSD && ComposeMsg(m) == None
            && !IsSale(m) && !IsGrant(m)
  {
    EightBytes();
    ValueOfBytes(amountSD, 8);
    var m := TransferBytes(to, amountSD, sender, None);
    assert m[..32] == to && m[32..40] == BigEndian(amountSD, 8);
  }

  /** Only a composed transfer to the magic recipient, of just the right length, would read as a sale or a grant. */
  lemma FramingCollision(to: Key, amountSD: U64, sender: Key, compose: Option<Bytes>)
    ensures IsSale(TransferBytes(to, amountSD, sender, compose))
       <==> compose.Some? && |compose.value| == 120 && to == SALE_TYPE
    ensures IsGrant(TransferBytes(to, amountSD, sender, compose))
       <==> compose.Some? && |compose.value| == 152 && to == GRANT_TYPE
  {
    var m := TransferBytes(to, amountSD, sender, compose);
    assert m[..32] == to;
  }
}
