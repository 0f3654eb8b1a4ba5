/** The card model: what the driver's constructor decodes from the two
    responses it asks for, the 3-report firmware response and the 10-report
    card header. Offsets follow the `FirmwareReport` and `CardInfo` layouts
    of the driver. */
module Card {
  import opened Bytes

  const FIRMWARE_LENGTH: nat := 3 * 0x40
  const HEADER_LENGTH: nat := 10 * 0x40

  // FirmwareReport: the version byte is repeated once per 64-byte report.
  const FIRMWARE_VERSION1: nat := 0x02
  const FIRMWARE_VERSION2: nat := 0x42
  const FIRMWARE_VERSION3: nat := 0x82

  // CardInfo
  const TITLE: nat := 0x40
  const TITLE_LENGTH: nat := 12
  const ID: nat := 0x4C
  const ID_LENGTH: nat := 6
  const UNIT_CODE: nat := 0x52
  const ROM_SIZE: nat := 0x54
  const SAVE_DESC1: nat := 0x240
  const SAVE_DESC2: nat := 0x241
  const SAVE_SIZE: nat := 0x242

  /** The descriptor pair that marks the 256 KiB / 512 KiB save heuristic. */
  const SAVE_DESC1_SENTINEL: byte := 0x62
  const SAVE_DESC2_256K: byte := 0x16

  /** The `version` string of the device, without its decimal printing:
      `LiteralOne` is the string "1.0"; `Computed(m, t)` is the float
      `m + t / 10` as an ostream prints it; `Invalid` is the one-character
      string that `version = -1` leaves (the char 0xFF). */
  datatype FirmwareVersion = LiteralOne | Computed(major: nat, tenths: nat) | Invalid

  /** CARD_NTR (0) is a DS/DSi card, CARD_CTR (1) an encrypted 3DS card. */
  datatype CardType = NTR | CTR

  function CardTypeByte(t: CardType): byte
  {
    if t == NTR then 0 else 1
  }

  /** What the constructor learns from a card header. `romSize` is `None`
      when `card_size` is left unassigned. */
  datatype CardInfo =
    | NoCard
    | Card(cardType: CardType, title: seq<byte>, id: seq<byte>, romSize: Option<int>, saveSize: int)

  /** The version a single firmware byte stands for: always a valid one,
      and one from which the byte is recovered. */
  function VersionOfByte(v: byte): (f: FirmwareVersion)
    ensures f != Invalid && VersionByte(f) == v
  {
    if v == 1 then LiteralOne else Computed(v / 10 + 1, v % 10)
  }

  /** The firmware byte a version string was decoded from. */
  function VersionByte(f: FirmwareVersion): int
  {
    match f
    case LiteralOne => 1
    case Computed(major, tenths) => (major - 1) * 10 + tenths
    case Invalid => -1
  }

  /** Decoding a firmware response: a version only when the three copies of
      the version byte agree, and then one from which that byte is
      recovered. */
  function DecodeFirmware(fw: seq<byte>): (f: FirmwareVersion)
    requires |fw| == FIRMWARE_LENGTH
    ensures f != Invalid <==> fw[FIRMWARE_VERSION1] == fw[FIRMWARE_VERSION2] == fw[FIRMWARE_VERSION3]
    ensures f != Invalid ==> VersionByte(f) == fw[FIRMWARE_VERSION1]
    ensures f.Computed? ==> f.tenths < 10 && 1 <= f.major <= 26 && fw[FIRMWARE_VERSION1] != 1
  {
    var v1, v2, v3 := fw[FIRMWARE_VERSION1], fw[FIRMWARE_VERSION2], fw[FIRMWARE_VERSION3];
    if v1 == v2 && v2 == v3 then VersionOfByte(v1) else Invalid
  }

  /** Two firmware bytes give the same version only if they are equal. */
  lemma VersionOfByteInjective(a: byte, b: byte)
    requires VersionOfByte(a) == VersionOfByte(b)
    ensures a == b
  {
    assert VersionByte(VersionOfByte(a)) == a;
    assert VersionByte(VersionOfByte(b)) == b;
  }

  /** A firmware response whose three reports carry the same version byte. */
  function FirmwareResponse(v: byte): (fw: seq<byte>)
    ensures |fw| == FIRMWARE_LENGTH
  {
    Zeros(FIRMWARE_LENGTH)[FIRMWARE_VERSION1 := v][FIRMWARE_VERSION2 := v][FIRMWARE_VERSION3 := v]
  }

  lemma FirmwareRoundTrip(v: byte)
    ensures DecodeFirmware(FirmwareResponse(v)) == VersionOfByte(v)
    ensures v == 1 ==> DecodeFirmware(FirmwareResponse(v)) == LiteralOne
    ensures v == 11 ==> DecodeFirmware(FirmwareResponse(v)) == Computed(2, 1)
  {
  }

  /** `save_size` from the exponent byte, else from the descriptor
      heuristic, else 0 (the probing fallback is disabled). */
  function SaveSizeOf(exp: byte, desc1: byte, desc2: byte): (s: int)
    ensures 0 < exp < 31 ==> s == Pow2(exp) && s > 0
    ensures exp == 0 && desc1 == SAVE_DESC1_SENTINEL ==> (s == 256 * 1024 <==> desc2 == SAVE_DESC2_256K) && (s == 512 * 1024 <==> desc2 != SAVE_DESC2_256K)
    ensures exp == 0 && desc1 != SAVE_DESC1_SENTINEL ==> s == 0
    ensures exp >= 31 ==> s == INT_MIN
  {
    if exp > 0 then PowToInt(exp)
    else if desc1 == SAVE_DESC1_SENTINEL then (if desc2 == SAVE_DESC2_256K then 256 else 512) * 1024
    else 0
  }

  /** Decoding a card header. No card when both the first title byte and the
      first save descriptor are zero; otherwise a CTR card exactly when the
      first title byte is zero, and only an NTR card gets a title (the C
      string at 0x40, cut to 12 bytes) and an id (the C string at 0x4C).
      A non-zero ROM size exponent gives the ROM size 2^rom_size. */
  function DecodeHeader(h: seq<byte>): (c: CardInfo)
    requires |h| == HEADER_LENGTH
    ensures c.NoCard? <==> h[TITLE] == 0 && h[SAVE_DESC1] == 0
    ensures c.Card? ==> (c.cardType == CTR <==> h[TITLE] == 0)
    ensures c.Card? && c.cardType == CTR ==> c.title == [] && c.id == []
    ensures c.Card? && c.cardType == NTR ==>
              && 1 <= |c.title| <= TITLE_LENGTH && c.title == h[TITLE..TITLE + |c.title|] && 0 !in c.title
              && (|c.title| < TITLE_LENGTH ==> h[TITLE + |c.title|] == 0)
              && c.id == CStringAt(h, ID)
    ensures c.Card? ==> (c.romSize.Some? <==> h[ROM_SIZE] > 0)
    ensures c.Card? && h[ROM_SIZE] > 0 ==> c.romSize == Some(PowToInt(h[ROM_SIZE]))
    ensures c.Card? ==> c.saveSize == SaveSizeOf(h[SAVE_SIZE], h[SAVE_DESC1], h[SAVE_DESC2])
  {
    if h[TITLE] == 0 && h[SAVE_DESC1] == 0 then NoCard
    else
      var ntr := h[TITLE] != 0;
      TitleRun(h);
      Card(if ntr then NTR else CTR,
           if ntr then Take(CStringAt(h, TITLE), TITLE_LENGTH) else [],
           if ntr then CStringAt(h, ID) else [],
           if h[ROM_SIZE] > 0 then Some(PowToInt(h[ROM_SIZE])) else None,
           SaveSizeOf(h[SAVE_SIZE], h[SAVE_DESC1], h[SAVE_DESC2]))
  }

  /** The title `substr(0, 12)` cuts from the C string at 0x40 is a
      NUL-free run of 1 to 12 header bytes, ending at a zero byte unless it
      reaches 12. */
  lemma TitleRun(h: seq<byte>)
    requires |h| == HEADER_LENGTH
    ensures var t := Take(CStringAt(h, TITLE), TITLE_LENGTH);
            h[TITLE] != 0 ==>
            && 1 <= |t| <= TITLE_LENGTH && t == h[TITLE..TITLE + |t|] && 0 !in t
            && (|t| < TITLE_LENGTH ==> h[TITLE + |t|] == 0)
  {
    if h[TITLE] != 0 {
      var c := CStringAt(h, TITLE);
      var t := Take(c, TITLE_LENGTH);
      assert c == [h[TITLE]] + CStringAt(h, TITLE + 1);
      assert forall i :: 0 <= i < |t| ==> t[i] == c[i] == h[TITLE + i];
    }
  }

  /** The header of an unencrypted card with the given title, id and size
      exponents (every other byte zero). */
  function NtrHeader(title: seq<byte>, id: seq<byte>, romExp: byte, saveExp: byte): (h: seq<byte>)
    requires 1 <= |title| <= TITLE_LENGTH && |id| == ID_LENGTH
    ensures |h| == HEADER_LENGTH
  {
    Overlay(Overlay(Zeros(HEADER_LENGTH), TITLE, title), ID, id)[ROM_SIZE := romExp][SAVE_SIZE := saveExp]
  }

  /** Decoding an unencrypted card's header gives back its title, its id and
      its sizes. */
  lemma NtrHeaderRoundTrip(title: seq<byte>, id: seq<byte>, romExp: byte, saveExp: byte)
    requires 1 <= |title| <= TITLE_LENGTH && 0 !in title
    requires |id| == ID_LENGTH && 0 !in id
    requires 0 < saveExp < 31
    ensures DecodeHeader(NtrHeader(title, id, romExp, saveExp))
         == Card(NTR, title, id, if romExp > 0 then Some(PowToInt(romExp)) else None, Pow2(saveExp))
  {
    var h := NtrHeader(title, id, romExp, saveExp);
    assert h[ID..ID + ID_LENGTH] == id;
    CStringIs(h, ID, id);
    assert h[TITLE..TITLE + |title|] == title;
    CStringStartsWith(h, TITLE, title);
    var c := CStringAt(h, TITLE);
    if |title| < TITLE_LENGTH {
      CStringIs(h, TITLE, title);
    } else {
      assert Take(c, TITLE_LENGTH) == c[..|title|];
    }
  }

  /** The header of an encrypted card: title and id are all zero, and only
      the save descriptors and the save size exponent are set. */
  function CtrHeader(desc1: byte, desc2: byte, saveExp: byte): (h: seq<byte>)
    ensures |h| == HEADER_LENGTH
  {
    Zeros(HEADER_LENGTH)[SAVE_DESC1 := desc1][SAVE_DESC2 := desc2][SAVE_SIZE := saveExp]
  }

  /** An encrypted card is present exactly when its first save descriptor is
      non-zero, and is then reported as a CTR card without title or id. */
  lemma CtrHeaderDecodes(desc1: byte, desc2: byte, saveExp: byte)
    ensures desc1 == 0 ==> DecodeHeader(CtrHeader(desc1, desc2, saveExp)) == NoCard
    ensures desc1 != 0 ==>
              DecodeHeader(CtrHeader(desc1, desc2, saveExp)) == Card(CTR, [], [], None, SaveSizeOf(saveExp, desc1, desc2))
  {
  }

  /** The id is a C string: when the unit code after the six id bytes is not
      zero, those bytes become part of the id as well. */
  lemma IdRunsIntoUnitCode(title: seq<byte>, id: seq<byte>, unit: byte)
    requires 1 <= |title| <= TITLE_LENGTH && 0 !in title
    requires |id| == ID_LENGTH && 0 !in id && unit != 0
    ensures var h := NtrHeader(title, id, 0, 1)[UNIT_CODE := unit];
            DecodeHeader(h).id == id + [unit]
  {
    var h := NtrHeader(title, id, 0, 1)[UNIT_CODE := unit];
    assert h[ID..ID + ID_LENGTH + 1] == id + [unit];
    CStringIs(h, ID, id + [unit]);
  }
}
