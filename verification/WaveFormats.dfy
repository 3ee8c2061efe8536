/**
 The bytes of a WAVEFORMATEX and its extension, and the hex text they are saved
 as (desktop/core/src/policy_config.rs:61-132).
 */
module WaveFormats {
  import opened Outcomes

  type Byte = b: int | 0 <= b < 0x100
  type Text = seq<Byte>

  const HEADER_BYTES := 18
  const UINT32 := 0x1_0000_0000

  function Word(bytes: seq<Byte>, at: nat): (w: nat)
    requires at + 2 <= |bytes|
    ensures w < 0x1_0000
  {
    bytes[at] as int + 0x100 * (bytes[at + 1] as int)
  }

  function DoubleWord(bytes: seq<Byte>, at: nat): nat
    requires at + 4 <= |bytes|
  {
    Word(bytes, at) + 0x1_0000 * Word(bytes, at + 2)
  }

  function LittleEndian(n: nat): (bytes: seq<Byte>)
    requires n < UINT32
    ensures |bytes| == 4 && DoubleWord(bytes, 0) == n
  {
    var low, high := n % 0x1_0000, n / 0x1_0000;
    [low % 0x100, low / 0x100, high % 0x100, high / 0x100]
  }

  datatype WaveFormat = WaveFormat(bytes: seq<Byte>) {

    /** A whole header, followed by exactly `cbSize` extension bytes. */
    predicate Whole() {
      HEADER_BYTES <= |bytes| == HEADER_BYTES + Word(bytes, 16)
    }

    function SampleRate(): nat
      requires Whole()
    {
      DoubleWord(bytes, 4)
    }

    function ByteRate(): nat
      requires Whole()
    {
      DoubleWord(bytes, 8)
    }

    function BlockAlign(): nat
      requires Whole()
    {
      Word(bytes, 12)
    }

    /** Only the rate changes, and with it the bytes per second, which wrap around at 2^32. */
    function WithSampleRate(rate: nat): (changed: WaveFormat)
      requires Whole() && rate < UINT32
      ensures changed.Whole() && |changed.bytes| == |bytes|
      ensures changed.SampleRate() == rate
      ensures changed.ByteRate() == rate * BlockAlign() % UINT32
      ensures changed.bytes[..4] == bytes[..4] && changed.bytes[12..] == bytes[12..]
    {
      var byteRate := LittleEndian(rate * BlockAlign() % UINT32);
      var moved := bytes[..4] + LittleEndian(rate) + byteRate + bytes[12..];
      assert moved[4..8] == LittleEndian(rate) && moved[8..12] == byteRate;
      WaveFormat(moved)
    }
  }

  lemma LittleEndianInjective(bytes: seq<Byte>, at: nat)
    requires at + 4 <= |bytes|
    ensures DoubleWord(bytes, at) < UINT32
    ensures LittleEndian(DoubleWord(bytes, at)) == bytes[at..at + 4]
  {
    var low, high := Word(bytes, at), Word(bytes, at + 2);
    WordBytes(bytes, at);
    WordBytes(bytes, at + 2);
    assert DoubleWord(bytes, at) % 0x1_0000 == low && DoubleWord(bytes, at) / 0x1_0000 == high;
  }

  lemma WordBytes(bytes: seq<Byte>, at: nat)
    requires at + 2 <= |bytes|
    ensures Word(bytes, at) % 0x100 == bytes[at] as int && Word(bytes, at) / 0x100 == bytes[at + 1] as int
  {
  }

  /**
   A rate forced over a rate loses nothing: whatever rates were forced before,
   the format at `rate` is the original one at `rate`, and the rate and byte
   rate are all that ever has to be put back.
   */
  lemma RatesDoNotAccumulate(format: WaveFormat, before: nat, rate: nat)
    requires format.Whole() && before < UINT32 && rate < UINT32
    ensures format.WithSampleRate(before).WithSampleRate(rate) == format.WithSampleRate(rate)
    ensures format.WithSampleRate(format.SampleRate()) == format
            <==> format.ByteRate() == format.SampleRate() * format.BlockAlign() % UINT32
  {
    var once, bytes := format.WithSampleRate(before).bytes, format.bytes;
    assert Word(once, 12) == once[12..][0] as int + 0x100 * (once[12..][1] as int);
    assert Word(bytes, 12) == bytes[12..][0] as int + 0x100 * (bytes[12..][1] as int);
    LittleEndianInjective(bytes, 4);
    LittleEndianInjective(bytes, 8);
    assert bytes == bytes[..4] + bytes[4..8] + bytes[8..12] + bytes[12..];
  }

  /** The number four bytes write, the lowest first. */
  predicate Writes(bytes: seq<Byte>, at: nat, n: nat) {
    at + 4 <= |bytes|
    && n == bytes[at] as int
        + 0x100 * (bytes[at + 1] as int + 0x100 * (bytes[at + 2] as int + 0x100 * bytes[at + 3] as int))
  }

  /**
   The layout, byte by byte: 18 bytes and the extension they announce are a whole
   format, and a rate is written to bytes 4 to 7 and the byte rate that follows from
   the block's size in bytes 12 and 13 to bytes 8 to 11.
   */
  lemma Layout(format: WaveFormat, rate: nat)
    requires rate < UINT32
    ensures var bytes := format.bytes;
            && (format.Whole() <==>
                  |bytes| >= 18 && |bytes| == 18 + bytes[16] as int + 0x100 * bytes[17] as int)
            && (format.Whole() ==>
                  var changed := format.WithSampleRate(rate).bytes;
                  && Writes(changed, 4, rate) && Writes(bytes, 4, format.SampleRate())
                  && Writes(changed, 8, rate * (bytes[12] as int + 0x100 * bytes[13] as int) % 0x1_0000_0000)
                  && changed == bytes[..4] + changed[4..12] + bytes[12..])
  {
    if format.Whole() {
      var bytes, changed := format.bytes, format.WithSampleRate(rate).bytes;
      assert changed[..4] == bytes[..4] && changed[12..] == bytes[12..];
      assert format.BlockAlign() == bytes[12] as int + 0x100 * bytes[13] as int;
    }
  }

  function HexDigit(n: int): (digit: Byte)
    requires 0 <= n < 16
    ensures HexValue(digit) == Some(n)
  {
    if n < 10 then '0' as int + n else 'a' as int + (n - 10)
  }

  function HexValue(digit: Byte): (n: Option<int>)
    ensures n.Some? ==> 0 <= n.value < 16
  {
    if '0' as int <= digit <= '9' as int then Some(digit - '0' as int)
    else if 'a' as int <= digit <= 'f' as int then Some(digit - 'a' as int + 10)
    else if 'A' as int <= digit <= 'F' as int then Some(digit - 'A' as int + 10)
    else None
  }

  function ToHex(bytes: seq<Byte>): (text: Text)
    ensures |text| == 2 * |bytes|
  {
    if bytes == [] then [] else [HexDigit(bytes[0] / 16), HexDigit(bytes[0] % 16)] + ToHex(bytes[1..])
  }

  /** Rust's `u8::from_str_radix` on two bytes: a leading `+` is a sign. */
  function HexPair(high: Byte, low: Byte): (byte: Option<Byte>) {
    match (HexValue(high), HexValue(low))
    case (Some(h), Some(l)) => Some(16 * h + l)
    case (None, Some(l)) => if high == '+' as int then Some(l) else None
    case _ => None
  }

  function HexBytes(text: Text): (bytes: Option<seq<Byte>>)
    requires |text| % 2 == 0
    ensures bytes.Some? ==> 2 * |bytes.value| == |text|
  {
    if text == [] then Some([]) else
    match (HexPair(text[0], text[1]), HexBytes(text[2..]))
    case (Some(byte), Some(rest)) => Some([byte] + rest)
    case _ => None
  }

  function FromHex(text: Text): (format: Option<WaveFormat>)
    ensures format.Some? ==> format.value.Whole()
  {
    if |text| % 2 != 0 || |text| / 2 < HEADER_BYTES then None else
    match HexBytes(text)
    case None => None
    case Some(bytes) => if WaveFormat(bytes).Whole() then Some(WaveFormat(bytes)) else None
  }

  lemma {:induction false} HexBytesOfHex(bytes: seq<Byte>)
    ensures HexBytes(ToHex(bytes)) == Some(bytes)
  {
    if bytes != [] {
      HexBytesOfHex(bytes[1..]);
      assert ToHex(bytes)[2..] == ToHex(bytes[1..]);
      assert [bytes[0]] + bytes[1..] == bytes;
    }
  }

  /** What is saved reads back as the same format, whatever its bytes. */
  lemma FormatsRoundTripThroughHex(format: WaveFormat)
    requires format.Whole()
    ensures FromHex(ToHex(format.bytes)) == Some(format)
  {
    HexBytesOfHex(format.bytes);
  }

  /** The sixteen digits, in either case. */
  lemma HexDigits(digit: Byte)
    ensures HexValue(digit).Some? <==> digit as char in "0123456789abcdefABCDEF"
    ensures var value := HexValue(digit);
            value.Some? ==> digit as char in {"0123456789abcdef"[value.value], "0123456789ABCDEF"[value.value]}
  {
  }

  /** In front of a digit a `+` is read over, and nothing else that is no digit. */
  lemma SignIsReadOver(high: Byte, digit: Byte)
    requires HexValue(high) == None
    ensures HexPair(high, digit) == if high as char == '+' then HexValue(digit) else None
  {
  }
}
