/** Bitstring status lists (sections 3.3 and 3.4 of W3C Bitstring Status List v1.0): the Python writer
    and reader, and the independent TypeScript reader. Compression is a parameter of the model. */
module StatusList {
  import opened Common
  import opened Base64Url

  /** An uncompressed list: the most significant bit of byte 0 is index 0. */
  type Bits = seq<bv8>

  datatype Gzip = Gzip(compress: Bits -> Bytes, decompress: Bytes -> Option<Bits>)

  ghost predicate Lossless(gz: Gzip) {
    forall bits :: gz.decompress(gz.compress(bits)) == Some(bits)
  }

  datatype ListError = BadList | OutOfBounds

  // ---- One byte -------------------------------------------------------------------------------

  type BitIndex = i: int | 0 <= i < 8

  /** `1 << (7 - i)` */
  function Mask(i: BitIndex): bv8 {
    if i == 0 then 0x80 else if i == 1 then 0x40 else if i == 2 then 0x20 else if i == 3 then 0x10
    else if i == 4 then 0x08 else if i == 5 then 0x04 else if i == 6 then 0x02 else 0x01
  }

  predicate Bit(b: bv8, i: BitIndex) {
    b & Mask(i) != 0
  }

  function WithBit(b: bv8, i: BitIndex, value: int): bv8 {
    if value == 1 then b | Mask(i) else b & !Mask(i)
  }

  /** The reading expression of both languages: `(b >> (7 - i)) & 1`. */
  function Read(b: bv8, i: BitIndex): bv8 {
    (b >> (7 - i)) & 1
  }

  lemma ReadIsTheBit(b: bv8, i: BitIndex)
    ensures Read(b, i) == if Bit(b, i) then 1 else 0
  {
    if i == 0 {} else if i == 1 {} else if i == 2 {} else if i == 3 {} else if i == 4 {} else if i == 5 {} else if i == 6 {} else {}
  }

  lemma WithBitOnce(b: bv8, i: BitIndex, value: int)
    ensures WithBit(b, i, value) == if value == 1 then b | Mask(i) else b & !Mask(i)
  {
  }

  lemma WithBitChangesOneBit(b: bv8, i: BitIndex, value: int, j: BitIndex)
    ensures Bit(WithBit(b, i, value), j) <==> if i == j then value == 1 else Bit(b, j)
  {
  }

  lemma BitsMakeTheByte(a: bv8, b: bv8)
    requires forall i: BitIndex :: Bit(a, i) <==> Bit(b, i)
    ensures a == b
  {
    assert Bit(a, 0) == Bit(b, 0) && Bit(a, 1) == Bit(b, 1) && Bit(a, 2) == Bit(b, 2) && Bit(a, 3) == Bit(b, 3);
    assert Bit(a, 4) == Bit(b, 4) && Bit(a, 5) == Bit(b, 5) && Bit(a, 6) == Bit(b, 6) && Bit(a, 7) == Bit(b, 7);
  }

  // ---- A list of bytes ---------------------------------------------------------------------------

  /** `divmod(index, 8)` then a Python subscript: from -len to -1 it counts from the end. */
  function Slot(length: nat, index: int): (r: Option<nat>)
    ensures r.Some? ==> r.value < length
  {
    var byteIndex := index / 8;
    if byteIndex >= length then None
    else if byteIndex >= 0 then Some(byteIndex)
    else if byteIndex + length >= 0 then Some(byteIndex + length)
    else None
  }

  function SetBits(bits: Bits, index: int, value: int): Result<Bits, ListError> {
    match Slot(|bits|, index)
    case None => Err(OutOfBounds)
    case Some(at) => Ok(bits[at := WithBit(bits[at], index % 8, value)])
  }

  lemma SetBitsAtTheSlot(bits: Bits, index: int, value: int)
    ensures var slot := Slot(|bits|, index);
            SetBits(bits, index, value)
            == if slot.None? then Err(OutOfBounds) else Ok(bits[slot.value := WithBit(bits[slot.value], index % 8, value)])
  {
  }

  function GetBits(bits: Bits, index: int): Result<bv8, ListError> {
    match Slot(|bits|, index)
    case None => Err(OutOfBounds)
    case Some(at) => Ok(Read(bits[at], index % 8))
  }

  /** What the TypeScript reader makes of an index: a buffer has nothing at a negative position. */
  function ReadBits(bits: Bits, index: int): Result<bv8, ListError> {
    if 0 <= index / 8 < |bits| then Ok(Read(bits[index / 8], index % 8)) else Err(OutOfBounds)
  }

  /** The indices of a list whose bit is set. */
  predicate IsRevoked(bits: Bits, i: int) {
    0 <= i < 8 * |bits| && Bit(bits[i / 8], i % 8)
  }

  function Revoked(bits: Bits): set<int> {
    set i | 0 <= i < 8 * |bits| && IsRevoked(bits, i)
  }

  /** The index a Python index really stands for. */
  function Place(length: nat, index: int): int {
    if index < 0 then index + 8 * length else index
  }

  predicate InReach(length: nat, index: int) {
    -8 * length <= index < 8 * length
  }

  lemma SlotIsThePlace(length: nat, index: int)
    ensures Slot(length, index).Some? <==> InReach(length, index)
    ensures InReach(length, index) ==> Slot(length, index) == Some(Place(length, index) / 8) && index % 8 == Place(length, index) % 8
  {
  }

  /** Setting a bit is refused exactly out of reach; otherwise it reads back and every other bit stays. */
  lemma SetBitsChangesOneIndex(bits: Bits, index: int, value: int)
    ensures var r := SetBits(bits, index, value);
            && (r.Ok? <==> InReach(|bits|, index))
            && (r.Ok? ==>
                  && |r.value| == |bits|
                  && forall i :: IsRevoked(r.value, i) <==> if i == Place(|bits|, index) then value == 1 else IsRevoked(bits, i))
  {
    hide Bit, WithBit;
    SlotIsThePlace(|bits|, index);
    if InReach(|bits|, index) {
      var place, bits' := Place(|bits|, index), SetBits(bits, index, value).value;
      forall i ensures IsRevoked(bits', i) <==> if i == place then value == 1 else IsRevoked(bits, i) {
        WithBitChangesOneBit(bits[place / 8], place % 8, value, i % 8);
      }
    }
  }

  /** Reading gives the bit of the place the index stands for. */
  lemma GetBitsReadsThePlace(bits: Bits, index: int)
    ensures GetBits(bits, index)
         == if InReach(|bits|, index) then Ok(if IsRevoked(bits, Place(|bits|, index)) then 1 else 0) else Err(OutOfBounds)
  {
    hide Read, Bit;
    SlotIsThePlace(|bits|, index);
    if InReach(|bits|, index) {
      ReadIsTheBit(bits[Place(|bits|, index) / 8], index % 8);
    }
  }

  /** The TypeScript reader gives what Python gives exactly when the index is not one Python counts from
      the end: there Python reads, and writes, another index, and TypeScript refuses. */
  lemma ReadersAgreeIff(bits: Bits, index: int)
    ensures ReadBits(bits, index) == GetBits(bits, index) <==> !(-8 * |bits| <= index < 0)
  {
    hide Read;
    SlotIsThePlace(|bits|, index);
  }

  /** A bit string is its length and its revoked indices. */
  lemma SameBits(a: Bits, b: Bits)
    requires |a| == |b| && Revoked(a) == Revoked(b)
    ensures a == b
  {
    forall k | 0 <= k < |a| ensures a[k] == b[k] {
      forall i: BitIndex ensures Bit(a[k], i) <==> Bit(b[k], i) {
        var index := 8 * k + i;
        assert index in Revoked(a) <==> index in Revoked(b);
        assert index / 8 == k && index % 8 == i;
      }
      BitsMakeTheByte(a[k], b[k]);
    }
  }

  // ---- Revocations in any order ---------------------------------------------------------------------

  ghost predicate AllIn(bits: Bits, indices: seq<int>) {
    forall k :: 0 <= k < |indices| ==> 0 <= indices[k] < 8 * |bits|
  }

  function RevokeAll(bits: Bits, indices: seq<int>): Bits
    requires AllIn(bits, indices)
    decreases |indices|
  {
    if indices == [] then bits
    else
      SetBitsChangesOneIndex(bits, indices[0], 1);
      RevokeAll(SetBits(bits, indices[0], 1).value, indices[1..])
  }

  lemma {:induction false} RevokeAllRevokesThem(bits: Bits, indices: seq<int>)
    requires AllIn(bits, indices)
    ensures |RevokeAll(bits, indices)| == |bits|
    ensures forall i :: i in Revoked(RevokeAll(bits, indices)) <==> i in Revoked(bits) || i in indices
    decreases |indices|
  {
    if indices != [] {
      hide SetBits;
      SetBitsChangesOneIndex(bits, indices[0], 1);
      RevokeAllRevokesThem(SetBits(bits, indices[0], 1).value, indices[1..]);
      assert forall i :: i in indices <==> i == indices[0] || i in indices[1..];
    }
  }

  /** The same revocations, in any order and however often repeated, give the same list. */
  lemma RevocationOrderIsIrrelevant(bits: Bits, indices: seq<int>, others: seq<int>)
    requires AllIn(bits, indices) && AllIn(bits, others)
    requires forall i :: i in indices <==> i in others
    ensures RevokeAll(bits, indices) == RevokeAll(bits, others)
  {
    RevokeAllRevokesThem(bits, indices);
    RevokeAllRevokesThem(bits, others);
    SameBits(RevokeAll(bits, indices), RevokeAll(bits, others));
  }

  // ---- Encoded lists -----------------------------------------------------------------------------------

  function Encoded(gz: Gzip, bits: Bits): string {
    Encode(gz.compress(bits))
  }

  function Opened(gz: Gzip, bytes: Option<Bytes>): Result<Bits, ListError> {
    if bytes.None? || gz.decompress(bytes.value).None? then Err(BadList) else Ok(gz.decompress(bytes.value).value)
  }

  /** `create_status_list`: a byte array cannot have a negative length. */
  function CreateStatusList(gz: Gzip, size: int): Result<string, ListError> {
    if (size + 7) / 8 < 0 then Err(BadList) else Ok(Encoded(gz, seq((size + 7) / 8, _ => 0)))
  }

  function SetBit(gz: Gzip, encodedList: string, index: int, value: int): Result<string, ListError> {
    match Opened(gz, PadAndDecode(encodedList))
    case Err(e) => Err(e)
    case Ok(bits) =>
      match SetBits(bits, index, value)
      case Err(e) => Err(e)
      case Ok(bits') => Ok(Encoded(gz, bits'))
  }

  function GetBit(gz: Gzip, encodedList: string, index: int): Result<bv8, ListError> {
    match Opened(gz, PadAndDecode(encodedList))
    case Err(e) => Err(e)
    case Ok(bits) => GetBits(bits, index)
  }

  /** `.replace(/-/g, '+').replace(/_/g, '/')` */
  function ToPlainAlphabet(text: string): string {
    seq(|text|, i requires 0 <= i < |text| => if text[i] == '-' then '+' else if text[i] == '_' then '/' else text[i])
  }

  /** The TypeScript reader. */
  function ReadStatusListBit(gz: Gzip, encodedList: string, index: int): Result<bv8, ListError> {
    match Opened(gz, Some(Decode(ToPlainAlphabet(encodedList))))
    case Err(e) => Err(e)
    case Ok(bits) => ReadBits(bits, index)
  }

  /** The write the Python source makes to its byte array. */
  method SetBitInPlace(buffer: array<bv8>, index: int, value: int) returns (ok: bool)
    modifies buffer
    ensures match SetBits(old(buffer[..]), index, value)
            case Ok(bits) => ok && buffer[..] == bits
            case Err(_) => !ok && buffer[..] == old(buffer[..])
  {
    hide Mask, Slot, SetBits, WithBit;
    ghost var was := buffer[..];
    SetBitsAtTheSlot(was, index, value);
    var slot := Slot(buffer.Length, index);
    if slot.None? {
      return false;
    }
    var at, bitIndex: BitIndex := slot.value, index % 8;
    var byte := buffer[at];
    if value == 1 {
      byte := byte | Mask(bitIndex);
    } else {
      byte := byte & !Mask(bitIndex);
    }
    assert byte == WithBit(was[at], bitIndex, value) by { WithBitOnce(was[at], bitIndex, value); }
    buffer[at] := byte;
    ok := true;
  }

  method SetBitByCopy(gz: Gzip, encodedList: string, index: int, value: int) returns (r: Result<string, ListError>)
    ensures r == SetBit(gz, encodedList, index, value)
  {
    var list := Opened(gz, PadAndDecode(encodedList));
    if list.Err? {
      return Err(list.error);
    }
    var bits := list.value;
    var buffer := new bv8[|bits|](i requires 0 <= i < |bits| => bits[i]);
    assert buffer[..] == bits;
    var ok := SetBitInPlace(buffer, index, value);
    if !ok {
      return Err(OutOfBounds);
    }
    r := Ok(Encoded(gz, buffer[..]));
  }

  lemma {:induction false} PlainAlphabetReadsTheSame(text: string)
    ensures Values(ToPlainAlphabet(text)) == Values(text)
  {
    if text != [] {
      PlainAlphabetReadsTheSame(text[1..]);
      assert ToPlainAlphabet(text)[1..] == ToPlainAlphabet(text[1..]);
    }
  }

  lemma EncodedOpens(gz: Gzip, bits: Bits)
    requires Lossless(gz)
    ensures Opened(gz, PadAndDecode(Encoded(gz, bits))) == Ok(bits)
    ensures Opened(gz, Some(Decode(ToPlainAlphabet(Encoded(gz, bits))))) == Ok(bits)
  {
    PadAndDecodeOfEncode(gz.compress(bits));
    DecodeOfEncode(gz.compress(bits));
    PlainAlphabetReadsTheSame(Encoded(gz, bits));
  }

  /** A new list has ceil(size / 8) bytes, reads zero at each of its places and refuses every place past them. */
  lemma NewListIsAllZero(gz: Gzip, size: nat, index: nat)
    requires Lossless(gz)
    ensures CreateStatusList(gz, size).Ok?
    ensures var bytes := (size + 7) / 8;
            && size <= 8 * bytes < size + 8
            && GetBit(gz, CreateStatusList(gz, size).value, index) == if index < 8 * bytes then Ok(0) else Err(OutOfBounds)
  {
    hide PadAndDecode, Decode;
    var bits := seq((size + 7) / 8, _ => 0 as bv8);
    EncodedOpens(gz, bits);
    GetBitsReadsThePlace(bits, index);
  }

  /** A written bit reads back, in both languages; every other index reads as before. */
  lemma WrittenBitReadsBack(gz: Gzip, bits: Bits, index: int, value: int, other: int)
    requires Lossless(gz) && 0 <= index < 8 * |bits| && 0 <= other
    ensures var list := Encoded(gz, bits);
            var written := SetBit(gz, list, index, value);
            && written.Ok?
            && GetBit(gz, written.value, other)
               == (if other == index then Ok(if value == 1 then 1 else 0) else GetBit(gz, list, other))
            && ReadStatusListBit(gz, written.value, other) == GetBit(gz, written.value, other)
  {
    hide PadAndDecode, Decode, SetBits, GetBits, ReadBits, Bit, IsRevoked, Encoded;
    EncodedOpens(gz, bits);
    SetBitsChangesOneIndex(bits, index, value);
    var bits' := SetBits(bits, index, value).value;
    EncodedOpens(gz, bits');
    GetBitsReadsThePlace(bits, other);
    GetBitsReadsThePlace(bits', other);
    ReadersAgreeIff(bits', other);
  }

  /** On every text of digits that an encoder can have made, readable or not, the two readers agree
      exactly off the range Python counts from the end. */
  lemma ListReadersAgreeIff(gz: Gzip, text: string, index: int)
    requires AllDigits(text) && |text| % 4 != 1
    ensures ReadStatusListBit(gz, text, index) == GetBit(gz, text, index)
       <==> gz.decompress(Decode(text)).None? || !(-8 * |gz.decompress(Decode(text)).value| <= index < 0)
  {
    hide PadAndDecode, Decode, GetBits, ReadBits;
    DecodersAgree(text);
    assert Decode(ToPlainAlphabet(text)) == Decode(text) by { PlainDecodesTheSame(text); }
    if gz.decompress(Decode(text)).Some? {
      ReadersAgreeIff(gz.decompress(Decode(text)).value, index);
    }
  }

  lemma PlainDecodesTheSame(text: string)
    ensures Decode(ToPlainAlphabet(text)) == Decode(text)
  {
    PlainAlphabetReadsTheSame(text);
  }
}
