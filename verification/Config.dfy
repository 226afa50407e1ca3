/** config.c: defaults, load and save of the configuration file. */
module Config {
  import opened CStrings
  import opened Numbers
  import opened Json
  import opened FlatObject

  const UID_SIZE: nat := 256
  const VALUE_SIZE: nat := 512
  const ESCAPE_SIZE: nat := 512
  const FILE_SIZE: nat := 8192

  const DEFAULT_BLACKHOLE_UID: string := "BlackHole2ch_UID"
  const DEFAULT_GAIN_DB: Double := Num(2.0)
  const DEFAULT_IN_CHANNEL: int := 0

  const KEY_INTERFACE: string := "interface_uid"
  const KEY_CHANNEL: string := "in_channel"
  const KEY_GAIN: string := "gain_db"
  const KEY_BLACKHOLE: string := "blackhole_uid"

  const CONFIG_OK: int := 0
  const CONFIG_NOT_FOUND: int := 1
  const CONFIG_ERROR: int := -1

  /** The contents of an xb_config. */
  datatype Settings = Settings(interfaceUid: string, inChannel: int32, gainDb: Double, blackholeUid: string)

  /** A string that fits a `char uid[256]`. */
  predicate FitsUid(s: string) {
    NulFree(s) && |s| < UID_SIZE
  }

  predicate ValidSettings(c: Settings) {
    FitsUid(c.interfaceUid) && FitsUid(c.blackholeUid)
  }

  function Defaults(): Settings {
    Settings("", DEFAULT_IN_CHANNEL, DEFAULT_GAIN_DB, DEFAULT_BLACKHOLE_UID)
  }

  /** printf's `%g` and strtod, of which only the shape of the printed token is known. */
  datatype FloatFormat = FloatFormat(printG: Double -> string, strtod: string -> Double)

  const FLOAT_WIDTH: nat := 24

  ghost predicate ValidFormat(ff: FloatFormat) {
    forall d :: IsToken(ff.printG(d)) && |ff.printG(d)| <= FLOAT_WIDTH
  }

  // ---- load ---------------------------------------------------------------

  /** What json_find_value leaves in `val`. */
  function Val(f: Option<Found>): Option<string> {
    if f.Some? then Some(Truncate(f.value.text, VALUE_SIZE)) else None
  }

  // What each field becomes: its default if nothing was found for its key.

  function InterfaceField(f: Option<Found>): string {
    if f.Some? then Truncate(Val(f).value, UID_SIZE) else Defaults().interfaceUid
  }

  function ChannelField(f: Option<Found>): int32 {
    if f.Some? then ToInt32(Strtol(Val(f).value)) else Defaults().inChannel
  }

  function GainField(f: Option<Found>, ff: FloatFormat): Double {
    if f.Some? then ff.strtod(Val(f).value) else Defaults().gainDb
  }

  function BlackholeField(f: Option<Found>): string {
    if f.Some? && Val(f).value != "" then Truncate(Val(f).value, UID_SIZE) else Defaults().blackholeUid
  }

  /** The defaults overlaid with the values found for the four keys. */
  function Overlay(iface: Option<Found>, bh: Option<Found>, channel: Option<Found>, gain: Option<Found>,
                   ff: FloatFormat): (c: Settings)
    requires iface.Some? ==> NulFree(iface.value.text)
    requires bh.Some? ==> NulFree(bh.value.text)
    ensures ValidSettings(c) && c.blackholeUid != ""
  {
    Settings(InterfaceField(iface), ChannelField(channel), GainField(gain, ff), BlackholeField(bh))
  }

  /** The settings a file's text stands for. Whatever the text, the result fits the struct and has
      a BlackHole UID. */
  function LoadText(text: string, ff: FloatFormat): (c: Settings)
    requires NulFree(text)
    ensures ValidSettings(c) && c.blackholeUid != ""
  {
    Overlay(FindValue(text, KEY_INTERFACE), FindValue(text, KEY_BLACKHOLE),
            FindValue(text, KEY_CHANNEL), FindValue(text, KEY_GAIN), ff)
  }

  /** The bytes of the file that are read: the first 8191. */
  function ReadPart(bytes: seq<char>): seq<char> {
    if |bytes| < FILE_SIZE then bytes else bytes[..FILE_SIZE - 1]
  }

  /** The text that reaches the parser: what is read, up to the first NUL. */
  function ReadText(bytes: seq<char>): (text: string)
    ensures NulFree(text)
  {
    CStr(ReadPart(bytes))
  }

  function LoadBytes(bytes: seq<char>, ff: FloatFormat): (c: Settings)
    ensures ValidSettings(c) && c.blackholeUid != ""
  {
    LoadText(ReadText(bytes), ff)
  }

  /** How locating, opening and reading the file turns out; CannotOpen is any reason but ENOENT. */
  datatype ReadOutcome = Readable | NoHome | CannotOpen | ReadFails

  /** The status xb_config_load returns. */
  function LoadStatus(content: Option<seq<char>>, io: ReadOutcome): int {
    if io == NoHome || io == CannotOpen then CONFIG_ERROR
    else if content == None then CONFIG_NOT_FOUND
    else if io == ReadFails then CONFIG_ERROR
    else CONFIG_OK
  }

  /** What xb_config_load leaves in its argument: the defaults unless the file could be read. */
  function Loaded(content: Option<seq<char>>, io: ReadOutcome, ff: FloatFormat): (c: Settings)
    ensures ValidSettings(c) && c.blackholeUid != ""
  {
    if LoadStatus(content, io) == CONFIG_OK then LoadBytes(content.value, ff) else Defaults()
  }

  /** Loading, outcome by outcome: -1 when the file cannot be located, opened or read, 1 when it does
      not exist, else 0; whatever was not read is the built-in configuration. */
  lemma LoadOutcomes(content: Option<seq<char>>, io: ReadOutcome, ff: FloatFormat)
    ensures LoadStatus(content, io) == -1 <==> io == NoHome || io == CannotOpen || (content.Some? && io == ReadFails)
    ensures LoadStatus(content, io) == 1 <==> content.None? && io != NoHome && io != CannotOpen
    ensures LoadStatus(content, io) == 0 <==> content.Some? && io == Readable
    ensures content.None? || io != Readable ==> Loaded(content, io, ff) == Settings("", 0, Num(2.0), "BlackHole2ch_UID")
    ensures content.Some? && io == Readable ==> Loaded(content, io, ff) == LoadBytes(content.value, ff)
  {
    hide LoadBytes;
  }

  /** The first `n` characters. */
  function Cut(s: string, n: nat): string {
    if |s| <= n then s else s[..n]
  }

  /** What a field becomes of the value found for its key: UIDs keep 255 characters, an empty
      BlackHole UID does not count, and numbers are read from the first 511 characters. */
  lemma FieldsExact(f: Found, ff: FloatFormat)
    ensures InterfaceField(Some(f)) == Cut(f.text, 255) && InterfaceField(None) == ""
    ensures BlackholeField(Some(f)) == if f.text == "" then "BlackHole2ch_UID" else Cut(f.text, 255)
    ensures BlackholeField(None) == "BlackHole2ch_UID"
    ensures ChannelField(Some(f)) == ToInt32(Strtol(Cut(f.text, 511))) && ChannelField(None) == 0
    ensures GainField(Some(f), ff) == ff.strtod(Cut(f.text, 511)) && GainField(None, ff) == Num(2.0)
  {
    assert Truncate(f.text, 512) == Cut(f.text, 511);
    assert Truncate(Truncate(f.text, 512), 256) == Cut(f.text, 255);
  }

  /** Bytes behind a NUL are not seen. */
  lemma LoadStopsAtNul(text: string, junk: seq<char>, ff: FloatFormat)
    requires NulFree(text) && |text| < 8191
    ensures LoadBytes(text + [NUL] + junk, ff) == LoadBytes(text, ff)
  {
    var bytes := text + [NUL] + junk;
    assert ReadPart(bytes)[|text|] == NUL && text <= ReadPart(bytes);
    CStrUnique(ReadPart(bytes), text);
    CStrUnique(ReadPart(text), text);
  }

  class ConfigStruct {
    var interfaceUid: string
    var inChannel: int32
    var gainDb: Double
    var blackholeUid: string

    constructor ()
      ensures Value() == Defaults()
    {
      interfaceUid, inChannel := "", DEFAULT_IN_CHANNEL;
      gainDb, blackholeUid := DEFAULT_GAIN_DB, DEFAULT_BLACKHOLE_UID;
    }

    function Value(): Settings
      reads this
    {
      Settings(interfaceUid, inChannel, gainDb, blackholeUid)
    }

    /** xb_config_defaults */
    method SetDefaults()
      modifies this
      ensures Value() == Defaults()
    {
      interfaceUid := "";
      inChannel := DEFAULT_IN_CHANNEL;
      gainDb := DEFAULT_GAIN_DB;
      blackholeUid := Truncate(DEFAULT_BLACKHOLE_UID, UID_SIZE);
    }
  }

  /** fread into `buf[8192]` and the terminating NUL behind what was read. */
  method Slurp(bytes: seq<char>) returns (buf: array<char>)
    ensures fresh(buf) && Stores(buf, ReadText(bytes))
  {
    buf := new char[FILE_SIZE];
    var got := if |bytes| < FILE_SIZE then |bytes| else FILE_SIZE - 1;
    forall i | 0 <= i < got {
      buf[i] := bytes[i];
    }
    buf[got] := NUL;
  }

  /** One `json_find_value(buf, key, val, sizeof(val), &is_string)` of xb_config_load. */
  method Find(buf: array<char>, key: string, ghost text: string) returns (val: Option<string>)
    requires Stores(buf, text)
    ensures val == Val(FindValue(text, key))
  {
    var out := new char[VALUE_SIZE];
    CStrUnique(buf[..], text);
    var found, isString := JsonFindValue(buf, key, out);
    if found {
      val := Some(CStr(out[..]));
    } else {
      val := None;
    }
  }

  /** xb_config_load */
  method Load(cfg: ConfigStruct, content: Option<seq<char>>, io: ReadOutcome, ff: FloatFormat)
    returns (status: int)
    modifies cfg
    ensures status == LoadStatus(content, io)
    ensures cfg.Value() == Loaded(content, io, ff)
  {
    cfg.SetDefaults();
    if io == NoHome || io == CannotOpen { return CONFIG_ERROR; }
    if content == None { return CONFIG_NOT_FOUND; }
    if io == ReadFails { return CONFIG_ERROR; }
    var buf := Slurp(content.value);
    Parse(cfg, buf, ff, ReadText(content.value));
    return CONFIG_OK;
  }

  /** The four lookups of xb_config_load: first the two UIDs, then the two numbers. */
  method Parse(cfg: ConfigStruct, buf: array<char>, ff: FloatFormat, ghost text: string)
    requires Stores(buf, text) && cfg.Value() == Defaults()
    modifies cfg
    ensures cfg.Value() == LoadText(text, ff)
  {
    ParseUids(cfg, buf, text);
    ParseNumbers(cfg, buf, ff, text);
  }

  method ParseUids(cfg: ConfigStruct, buf: array<char>, ghost text: string)
    requires Stores(buf, text) && cfg.interfaceUid == Defaults().interfaceUid && cfg.blackholeUid == Defaults().blackholeUid
    modifies cfg`interfaceUid, cfg`blackholeUid
    ensures cfg.interfaceUid == InterfaceField(FindValue(text, KEY_INTERFACE))
    ensures cfg.blackholeUid == BlackholeField(FindValue(text, KEY_BLACKHOLE))
  {
    var iface := Find(buf, KEY_INTERFACE, text);
    if iface.Some? {
      cfg.interfaceUid := Truncate(iface.value, UID_SIZE);
    }
    var bh := Find(buf, KEY_BLACKHOLE, text);
    if bh.Some? {
      if bh.value != "" {
        cfg.blackholeUid := Truncate(bh.value, UID_SIZE);
      }
    }
  }

  method ParseNumbers(cfg: ConfigStruct, buf: array<char>, ff: FloatFormat, ghost text: string)
    requires Stores(buf, text) && cfg.inChannel == Defaults().inChannel && cfg.gainDb == Defaults().gainDb
    modifies cfg`inChannel, cfg`gainDb
    ensures cfg.inChannel == ChannelField(FindValue(text, KEY_CHANNEL))
    ensures cfg.gainDb == GainField(FindValue(text, KEY_GAIN), ff)
  {
    var channel := Find(buf, KEY_CHANNEL, text);
    if channel.Some? {
      cfg.inChannel := ToInt32(Strtol(channel.value));
    }
    var gain := Find(buf, KEY_GAIN, text);
    if gain.Some? {
      cfg.gainDb := ff.strtod(gain.value);
    }
  }

  // ---- save ---------------------------------------------------------------

  function Escaped(s: string): string {
    Escape(s[..Fitting(s, ESCAPE_SIZE, 0)])
  }

  /** The text fprintf writes. */
  function Fprintf(ifaceEsc: string, channel: string, gain: string, bhEsc: string): string {
    "{\n  \"interface_uid\": \"" + (ifaceEsc
    + ("\",\n  \"in_channel\": " + (channel
    + (",\n  \"gain_db\": " + (gain
    + (",\n  \"blackhole_uid\": \"" + (bhEsc + "\"\n}\n")))))))
  }

  function Printed(c: Settings, ff: FloatFormat): string {
    Fprintf(Escaped(c.interfaceUid), Decimal(c.inChannel), ff.printG(c.gainDb), Escaped(c.blackholeUid))
  }

  /** How writing the file turns out; a failing write or close leaves a prefix of the text. */
  datatype WriteOutcome = Written | CannotCreate | Partial(kept: nat)

  /** The file after xb_config_save. */
  function SavedContent(oldContent: Option<seq<char>>, c: Settings, io: WriteOutcome, ff: FloatFormat): Option<seq<char>> {
    var text := Printed(c, ff);
    match io
    case Written => Some(text)
    case CannotCreate => oldContent
    case Partial(kept) => Some(text[..if kept <= |text| then kept else |text|])
  }

  /** The file after saving, outcome by outcome: the whole text, what was there, or a prefix. */
  lemma SaveOutcomes(before: Option<seq<char>>, c: Settings, ff: FloatFormat, kept: nat)
    ensures SavedContent(before, c, Written, ff) == Some(Printed(c, ff))
    ensures SavedContent(before, c, CannotCreate, ff) == before
    ensures var after := SavedContent(before, c, Partial(kept), ff);
      after.Some? && after.value <= Printed(c, ff) && (|after.value| == kept || (after.value == Printed(c, ff) && kept > |after.value|))
  {
    hide Printed;
  }

  /** json_escape into a `char esc[512]`. */
  method EscapeToBuffer(s: string) returns (e: string)
    requires NulFree(s)
    ensures e == Escaped(s)
  {
    var esc := new char[ESCAPE_SIZE];
    JsonEscape(s, esc);
    e := CStr(esc[..]);
  }

  class ConfigFile {
    var content: Option<seq<char>>

    constructor (initial: Option<seq<char>>)
      ensures content == initial
    {
      content := initial;
    }

    /** xb_config_save */
    method Save(cfg: ConfigStruct, io: WriteOutcome, ff: FloatFormat) returns (rc: int)
      requires ValidSettings(cfg.Value())
      modifies this
      ensures rc == if io == Written then 0 else -1
      ensures content == SavedContent(old(content), cfg.Value(), io, ff)
    {
      if io == CannotCreate { return -1; }
      var ifaceEsc := EscapeToBuffer(cfg.interfaceUid);
      var bhEsc := EscapeToBuffer(cfg.blackholeUid);
      var text := Fprintf(ifaceEsc, Decimal(cfg.inChannel), ff.printG(cfg.gainDb), bhEsc);
      if io.Partial? {
        content := Some(text[..if io.kept <= |text| then io.kept else |text|]);
        return -1;
      }
      content := Some(text);
      return 0;
    }
  }

  // ---- the printed file as a flat object ----------------------------------

  const OPEN: string := "{\n  "

  function ConfigMembers(c: Settings, ff: FloatFormat): seq<Member> {
    [ Member(KEY_INTERFACE, "", " ", Str(c.interfaceUid), ",\n  "),
      Member(KEY_CHANNEL, "", " ", Bare(Decimal(c.inChannel)), ",\n  "),
      Member(KEY_GAIN, "", " ", Bare(ff.printG(c.gainDb)), ",\n  "),
      Member(KEY_BLACKHOLE, "", " ", Str(c.blackholeUid), "\n}\n") ]
  }

  lemma KeysArePlain()
    ensures PlainKey(KEY_INTERFACE) && PlainKey(KEY_CHANNEL) && PlainKey(KEY_GAIN) && PlainKey(KEY_BLACKHOLE)
  {
  }

  lemma ConfigMembersValid(c: Settings, ff: FloatFormat)
    requires ValidSettings(c) && ValidFormat(ff)
    ensures ValidMembers(ConfigMembers(c, ff))
  {
    KeysArePlain();
    DecimalShape(c.inChannel);
    var d := Decimal(c.inChannel);
    assert forall i :: 0 <= i < |d| ==> d[i] in d;
  }

  /** A UID that fits the struct is never truncated by the 512-byte escape buffers. */
  lemma EscapedIsWhole(s: string)
    requires FitsUid(s)
    ensures Escaped(s) == Escape(s) && |Escaped(s)| <= 510
  {
    EscapeNeverTruncates(s, ESCAPE_SIZE);
  }

  function KeyHead(key: string): string {
    [QUOTE] + key + [QUOTE] + ": "
  }

  lemma MembersFromHead(ms: seq<Member>)
    requires ms != [] && ms[0].gap == "" && ms[0].lead == " "
    ensures Members(ms) == KeyHead(ms[0].key) + AtValue(ms)
  {
    assert "" + ":" + " " == ": ";
    Assoc([QUOTE] + ms[0].key + [QUOTE], ": ", AtValue(ms));
  }

  lemma StrLine(l: string, before: string, head: string, e: string, rest: string)
    requires l == before + (head + [QUOTE])
    ensures l + (e + ([QUOTE] + rest)) == before + (head + ([QUOTE] + e + [QUOTE] + rest))
  {
  }

  lemma BareLine(l: string, before: string, head: string, rest: string)
    requires l == before + head
    ensures l + rest == before + (head + rest)
  {
  }

  // The literals of the format string, cut at the keys.

  lemma FormatInterface()
    ensures "{\n  \"interface_uid\": \"" == OPEN + (KeyHead(KEY_INTERFACE) + [QUOTE])
  {
  }

  lemma FormatChannel()
    ensures "\",\n  \"in_channel\": " == ([QUOTE] + ",\n  ") + KeyHead(KEY_CHANNEL)
  {
  }

  lemma FormatGain()
    ensures ",\n  \"gain_db\": " == ",\n  " + KeyHead(KEY_GAIN)
  {
  }

  lemma FormatBlackhole()
    ensures ",\n  \"blackhole_uid\": \"" == ",\n  " + (KeyHead(KEY_BLACKHOLE) + [QUOTE])
    ensures "\"\n}\n" == [QUOTE] + ("\n}\n" + "")
  {
  }

  lemma PrintedIsFlat(c: Settings, ff: FloatFormat)
    requires ValidSettings(c)
    ensures Printed(c, ff) == Render(OPEN, ConfigMembers(c, ff))
  {
    var ms := ConfigMembers(c, ff);
    var e1, d, g, e2 := Escape(c.interfaceUid), Decimal(c.inChannel), ff.printG(c.gainDb), Escape(c.blackholeUid);
    EscapedIsWhole(c.interfaceUid);
    EscapedIsWhole(c.blackholeUid);
    FormatBlackhole();
    MembersFromHead(ms[3..]);
    StrLine(",\n  \"blackhole_uid\": \"", ",\n  ", KeyHead(KEY_BLACKHOLE), e2, "\n}\n" + "");
    var m3 := ",\n  " + Members(ms[3..]);
    FormatGain();
    MembersFromHead(ms[2..]);
    BareLine(",\n  \"gain_db\": ", ",\n  ", KeyHead(KEY_GAIN), g + m3);
    var m2 := ",\n  " + Members(ms[2..]);
    FormatChannel();
    MembersFromHead(ms[1..]);
    BareLine("\",\n  \"in_channel\": ", [QUOTE] + ",\n  ", KeyHead(KEY_CHANNEL), d + m2);
    var m1 := ",\n  " + Members(ms[1..]);
    Assoc([QUOTE], ",\n  ", Members(ms[1..]));
    FormatInterface();
    MembersFromHead(ms);
    StrLine("{\n  \"interface_uid\": \"", OPEN, KeyHead(KEY_INTERFACE), e1, m1);
  }
}
