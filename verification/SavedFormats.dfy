/**
 The file that holds the original formats of the endpoints the client changed
 (desktop/core/src/policy_config.rs:134-175, 282-317): its text, and what loading
 that text gives back.
 */
module SavedFormats {
  import opened Outcomes
  import opened WaveFormats

  type Id = string

  datatype Formats = Formats(device: WaveFormat, mix: WaveFormat) {
    predicate Whole() {
      device.Whole() && mix.Whole()
    }

    function At(rate: nat): (changed: Formats)
      requires Whole() && rate < UINT32
      ensures changed.Whole() && changed.device.SampleRate() == changed.mix.SampleRate() == rate
      ensures changed.device.bytes[..4] == device.bytes[..4] && changed.device.bytes[12..] == device.bytes[12..]
      ensures changed.mix.bytes[..4] == mix.bytes[..4] && changed.mix.bytes[12..] == mix.bytes[12..]
      ensures changed.device.ByteRate() == rate * device.BlockAlign() % UINT32
      ensures |changed.device.bytes| == |device.bytes| && |changed.mix.bytes| == |mix.bytes|
      ensures changed.mix.ByteRate() == rate * mix.BlockAlign() % UINT32
    {
      Formats(device.WithSampleRate(rate), mix.WithSampleRate(rate))
    }
  }

  /** The change a forced rate makes, a function of the original formats alone. */
  function AtRate(rate: nat): Formats -> Formats
    requires rate < UINT32
  {
    (formats: Formats) => if formats.Whole() then formats.At(rate) else formats
  }

  /** Of each of the two formats a forced rate changes the rate and the byte rate, bytes 4 to 11, and nothing else. */
  lemma ForcedRateKeepsRest(formats: Formats, rate: nat)
    requires formats.Whole() && rate < UINT32
    ensures var forced := AtRate(rate)(formats);
            && forced.Whole() && forced.device.SampleRate() == forced.mix.SampleRate() == rate
            && OnlyRateDiffers(forced.device, formats.device) && OnlyRateDiffers(forced.mix, formats.mix)
            && forced.device.ByteRate() == rate * formats.device.BlockAlign() % UINT32
            && forced.mix.ByteRate() == rate * formats.mix.BlockAlign() % UINT32
  {
  }

  predicate OnlyRateDiffers(one: WaveFormat, other: WaveFormat) {
    && |one.bytes| == |other.bytes| && 12 <= |one.bytes|
    && one.bytes[..4] == other.bytes[..4] && one.bytes[12..] == other.bytes[12..]
  }

  /**
   Whatever rates were forced on the way, the formats end at the last one: only
   the original has to be kept, not a history.
   */
  lemma OnlyTheLastRateCounts(formats: Formats, before: nat, rate: nat)
    requires formats.Whole() && before < UINT32 && rate < UINT32
    ensures AtRate(rate)(AtRate(before)(formats)) == AtRate(rate)(formats)
    ensures AtRate(rate)(formats).device.SampleRate() == rate
  {
    RatesDoNotAccumulate(formats.device, before, rate);
    RatesDoNotAccumulate(formats.mix, before, rate);
  }

  datatype Original = Original(id: Id, formats: Formats)

  predicate AllWhole(originals: seq<Original>) {
    forall entry :: entry in originals ==> entry.formats.Whole()
  }

  /** One entry as it is written: the formats in hex. */
  datatype Saved = Saved(id: Id, device: Text, mix: Text)

  /** The file's JSON: the list, or the single entry the first builds wrote. */
  datatype SavedText = Single(one: Saved) | Listed(all: seq<Saved>)

  function ToSaved(original: Original): Saved {
    Saved(original.id, ToHex(original.formats.device.bytes), ToHex(original.formats.mix.bytes))
  }

  function FromSaved(saved: Saved): (original: Option<Original>)
    ensures original.Some? ==> original.value.id == saved.id && original.value.formats.Whole()
  {
    match (FromHex(saved.device), FromHex(saved.mix))
    case (Some(device), Some(mix)) => Some(Original(saved.id, Formats(device, mix)))
    case _ => None
  }

  function AllToSaved(originals: seq<Original>): (saved: seq<Saved>)
    ensures |saved| == |originals|
  {
    seq(|originals|, i requires 0 <= i < |originals| => ToSaved(originals[i]))
  }

  function AllFromSaved(saved: seq<Saved>): (originals: Option<seq<Original>>)
    ensures originals.Some? ==> AllWhole(originals.value)
  {
    if saved == [] then Some([]) else
    match (FromSaved(saved[0]), AllFromSaved(saved[1..]))
    case (Some(first), Some(rest)) => Some([first] + rest)
    case _ => None
  }

  function Decode(text: SavedText): (originals: Option<seq<Original>>)
    ensures originals.Some? ==> AllWhole(originals.value)
  {
    AllFromSaved(match text case Single(one) => [one] case Listed(all) => all)
  }

  function Encode(originals: seq<Original>): SavedText {
    Listed(AllToSaved(originals))
  }

  lemma {:induction false} SavedOriginalsReadBack(originals: seq<Original>)
    requires AllWhole(originals)
    ensures AllFromSaved(AllToSaved(originals)) == Some(originals)
  {
    if originals != [] {
      hide WaveFormat.Whole;
      var first, rest := originals[0], originals[1..];
      assert originals == [first] + rest && first in originals;
      SavedOriginalsReadBack(rest);
      FormatsRoundTripThroughHex(first.formats.device);
      FormatsRoundTripThroughHex(first.formats.mix);
      assert AllToSaved(originals)[1..] == AllToSaved(rest);
    }
  }

  /**
   What is stored loads again, whole and in order; and an entry that would not
   load is one whose format was not whole.
   */
  lemma StoredOriginalsReadBack(originals: seq<Original>)
    ensures Decode(Encode(originals)) == Some(originals) <==> AllWhole(originals)
  {
    if AllWhole(originals) {
      SavedOriginalsReadBack(originals);
    }
  }

  /** The single entry of the first builds loads as a list of one, if its formats are whole. */
  lemma SingleEntryLoads(original: Original)
    ensures Decode(Single(ToSaved(original))) == Some([original]) <==> original.formats.Whole()
  {
    if original.formats.Whole() {
      FormatsRoundTripThroughHex(original.formats.device);
      FormatsRoundTripThroughHex(original.formats.mix);
      var saved := [ToSaved(original)];
      assert saved[1..] == [] && AllFromSaved([]) == Some([]) && [original] + [] == [original];
    } else {
      assert original in [original];
    }
  }

  /** One entry that is not written in hex, or too short for a format, and nothing is loaded. */
  lemma {:induction false} OneBrokenEntry(saved: seq<Saved>)
    ensures Decode(Listed(saved)) == None <==> exists i :: 0 <= i < |saved| && FromSaved(saved[i]) == None
  {
    if saved != [] {
      OneBrokenEntry(saved[1..]);
      assert forall i :: 0 < i < |saved| ==> saved[i] == saved[1..][i - 1];
      if exists i :: 0 <= i < |saved[1..]| && FromSaved(saved[1..][i]) == None {
        var i :| 0 <= i < |saved[1..]| && FromSaved(saved[1..][i]) == None;
        assert FromSaved(saved[i + 1]) == None;
      }
    }
  }
}
