/** What loading yields for any flat configuration file, and for the file save wrote. */
module RoundTrip {
  import opened CStrings
  import opened Numbers
  import opened Json
  import opened FlatObject
  import opened Config

  // ---- any flat file ------------------------------------------------------

  lemma {:induction false} MembersNulFree(ms: seq<Member>)
    requires ValidMembers(ms)
    ensures NulFree(Members(ms))
  {
    if ms != [] {
      MembersNulFree(ms[1..]);
      MembersCons(ms);
      var m := ms[0];
      assert forall i :: 0 <= i < |m.key| ==> KeyChar(m.key[i]);
      assert NulFree(ValueText(m.value));
    }
  }

  /** What is read reaches the parser unchanged if it holds no NUL. */
  lemma ReadTextOfPart(bytes: seq<char>, text: string)
    requires NulFree(text) && ReadPart(bytes) == text
    ensures ReadText(bytes) == text
  {
    CStrUnique(text, text);
  }

  lemma {:induction false} DictionaryNulFree(ms: seq<Member>, key: string)
    requires ValidMembers(ms) && key in Dictionary(ms)
    ensures NulFree(ValueFound(Dictionary(ms)[key]).text)
  {
    if ms[0].key != key {
      DictionaryNulFree(ms[1..], key);
    }
  }

  lemma LookupNulFree(open: string, ms: seq<Member>, key: string)
    requires NulFree(open) && QuoteFree(open) && ValidMembers(ms) && PlainKey(key)
    ensures Lookup(ms, key).Some? ==> NulFree(Lookup(ms, key).value.text)
  {
    MembersNulFree(ms);
    FindValueIsLookup(open, ms, key);
  }

  /** The settings a file stands for are decided by the dictionary of its members alone: neither
      their order nor the blank space matters, and an absent key leaves the default. */
  function DictionarySettings(ms: seq<Member>, ff: FloatFormat): Settings
    requires ValidMembers(ms)
  {
    var d := Dictionary(ms);
    assert forall key :: key in d ==> NulFree(ValueFound(d[key]).text) by {
      forall key | key in d ensures NulFree(ValueFound(d[key]).text) { DictionaryNulFree(ms, key); }
    }
    Overlay(Entry(d, KEY_INTERFACE), Entry(d, KEY_BLACKHOLE), Entry(d, KEY_CHANNEL), Entry(d, KEY_GAIN), ff)
  }

  /** Loading any file whose part that is read is flat is looking its four keys up. */
  lemma LoadOfFlatFile(bytes: seq<char>, open: string, ms: seq<Member>, ff: FloatFormat)
    requires NulFree(open) && QuoteFree(open) && ValidMembers(ms) && ReadPart(bytes) == Render(open, ms)
    ensures Lookup(ms, KEY_INTERFACE).Some? ==> NulFree(Lookup(ms, KEY_INTERFACE).value.text)
    ensures Lookup(ms, KEY_BLACKHOLE).Some? ==> NulFree(Lookup(ms, KEY_BLACKHOLE).value.text)
    ensures LoadBytes(bytes, ff)
         == Overlay(Lookup(ms, KEY_INTERFACE), Lookup(ms, KEY_BLACKHOLE), Lookup(ms, KEY_CHANNEL), Lookup(ms, KEY_GAIN), ff)
  {
    KeysArePlain();
    MembersNulFree(ms);
    ReadTextOfPart(bytes, Render(open, ms));
    FindValueIsLookup(open, ms, KEY_INTERFACE);
    FindValueIsLookup(open, ms, KEY_BLACKHOLE);
    FindValueIsLookup(open, ms, KEY_CHANNEL);
    FindValueIsLookup(open, ms, KEY_GAIN);
    LookupNulFree(open, ms, KEY_INTERFACE);
    LookupNulFree(open, ms, KEY_BLACKHOLE);
  }

  /** For files whose part that is read is flat, which are all flat files of at most 8191 bytes and
      longer ones that are cut between two members: load is the defaults overlaid with the keys that
      are present, independent of order and blank space, exactly if no field is changed by a capture:
      for each key, the value behind the first string value that forms it before the key itself reads
      like the key's own entry. */
  lemma LoadOverlaysDefaults(bytes: seq<char>, open: string, ms: seq<Member>, ff: FloatFormat)
    requires NulFree(open) && QuoteFree(open) && ValidMembers(ms) && ReadPart(bytes) == Render(open, ms)
    ensures LoadBytes(bytes, ff) == DictionarySettings(ms, ff) <==>
      && (forall j: nat :: FirstForm(ms, KEY_INTERFACE, j) ==>
            InterfaceField(Behind(ms, j)) == InterfaceField(Entry(Dictionary(ms), KEY_INTERFACE)))
      && (forall j: nat :: FirstForm(ms, KEY_BLACKHOLE, j) ==>
            BlackholeField(Behind(ms, j)) == BlackholeField(Entry(Dictionary(ms), KEY_BLACKHOLE)))
      && (forall j: nat :: FirstForm(ms, KEY_CHANNEL, j) ==>
            ChannelField(Behind(ms, j)) == ChannelField(Entry(Dictionary(ms), KEY_CHANNEL)))
      && (forall j: nat :: FirstForm(ms, KEY_GAIN, j) ==>
            GainField(Behind(ms, j), ff) == GainField(Entry(Dictionary(ms), KEY_GAIN), ff))
  {
    LoadOfFlatFile(bytes, open, ms, ff);
    LookupByFirstForm(ms, KEY_INTERFACE);
    LookupByFirstForm(ms, KEY_BLACKHOLE);
    LookupByFirstForm(ms, KEY_CHANNEL);
    LookupByFirstForm(ms, KEY_GAIN);
  }

  /** Keys that stand too far back are not seen: behind 8191 bytes of blank space any file loads as
      the defaults. */
  lemma FarKeysAreIgnored(open: string, rest: string, ff: FloatFormat)
    requires NulFree(open) && QuoteFree(open) && |open| >= 8191
    ensures LoadBytes(open + rest, ff) == Defaults()
  {
    var read := open[..FILE_SIZE - 1];
    if |open + rest| >= FILE_SIZE {
      assert (open + rest)[..FILE_SIZE - 1] == read;
    } else {
      assert open + rest == read;
    }
    LoadOfFlatFile(open + rest, read, [], ff);
  }

  // ---- the file save wrote ------------------------------------------------

  /** The saved file always fits the read buffer and holds no NUL. */
  lemma PrintedFits(c: Settings, ff: FloatFormat)
    requires ValidSettings(c) && ValidFormat(ff)
    ensures |Printed(c, ff)| < 1200 < FILE_SIZE && NulFree(Printed(c, ff))
  {
    EscapedIsWhole(c.interfaceUid);
    EscapedIsWhole(c.blackholeUid);
    DecimalShape(c.inChannel);
    PrintedIsFlat(c, ff);
    ConfigMembersValid(c, ff);
    MembersNulFree(ConfigMembers(c, ff));
    FprintfLength(Escaped(c.interfaceUid), Decimal(c.inChannel), ff.printG(c.gainDb), Escaped(c.blackholeUid));
  }

  lemma FprintfLength(e1: string, d: string, g: string, e2: string)
    ensures |Fprintf(e1, d, g, e2)| == |e1| + |d| + |g| + |e2| + 82
  {
  }

  /** What a saved configuration loads as: an interface UID that ends in a quoted later key makes
      the value of the line behind it (the channel) be read for that key. */
  function Reloaded(c: Settings, ff: FloatFormat): Settings {
    Settings(
      c.interfaceUid,
      c.inChannel,
      if Forms(c.interfaceUid, KEY_GAIN) then ff.strtod(Decimal(c.inChannel)) else ff.strtod(ff.printG(c.gainDb)),
      if Forms(c.interfaceUid, KEY_BLACKHOLE) then Decimal(c.inChannel)
      else if c.blackholeUid == "" then DEFAULT_BLACKHOLE_UID else c.blackholeUid)
  }

  /** Save then load, for every configuration the struct can hold. */
  lemma LoadAfterSave(c: Settings, ff: FloatFormat)
    requires ValidSettings(c) && ValidFormat(ff)
    ensures LoadBytes(Printed(c, ff), ff) == Reloaded(c, ff)
  {
    var ms := ConfigMembers(c, ff);
    PrintedFits(c, ff);
    PrintedIsFlat(c, ff);
    ConfigMembersValid(c, ff);
    LoadOfFlatFile(Printed(c, ff), OPEN, ms, ff);
    LookupInSaved(c, ff);
    OverlayOfSaved(c, ff);
  }

  lemma OverlayOfSaved(c: Settings, ff: FloatFormat)
    requires ValidSettings(c) && ValidFormat(ff)
    ensures FitsUid(Decimal(c.inChannel))
    ensures Overlay(
      Some(Found(c.interfaceUid, true)),
      Some(if Forms(c.interfaceUid, KEY_BLACKHOLE) then Found(Decimal(c.inChannel), false) else Found(c.blackholeUid, true)),
      Some(Found(Decimal(c.inChannel), false)),
      Some(if Forms(c.interfaceUid, KEY_GAIN) then Found(Decimal(c.inChannel), false) else Found(ff.printG(c.gainDb), false)),
      ff) == Reloaded(c, ff)
  {
    DecimalRoundTrip(c.inChannel);
    DecimalShape(c.inChannel);
    var d := Decimal(c.inChannel);
    assert forall i :: 0 <= i < |d| ==> d[i] in d;
    assert |ff.printG(c.gainDb)| <= FLOAT_WIDTH;
  }

  lemma LookupInSaved(c: Settings, ff: FloatFormat)
    ensures var ms := ConfigMembers(c, ff);
      && Lookup(ms, KEY_INTERFACE) == Some(Found(c.interfaceUid, true))
      && Lookup(ms, KEY_CHANNEL) == Some(Found(Decimal(c.inChannel), false))
      && Lookup(ms, KEY_GAIN) == Some(if Forms(c.interfaceUid, KEY_GAIN) then Found(Decimal(c.inChannel), false)
                                      else Found(ff.printG(c.gainDb), false))
      && Lookup(ms, KEY_BLACKHOLE) == Some(if Forms(c.interfaceUid, KEY_BLACKHOLE) then Found(Decimal(c.inChannel), false)
                                           else Found(c.blackholeUid, true))
  {
    var ms := ConfigMembers(c, ff);
    assert ms[1..][1..] == ms[2..] && ms[2..][1..] == ms[3..];
    assert ms[1].value.Bare? && ms[2].value.Bare?;
    assert Lookup(ms[2..], KEY_GAIN) == Some(Found(ff.printG(c.gainDb), false));
    assert Lookup(ms[1..], KEY_GAIN) == Lookup(ms[2..], KEY_GAIN);
    assert Lookup(ms[3..], KEY_BLACKHOLE) == Some(Found(c.blackholeUid, true));
    assert Lookup(ms[2..], KEY_BLACKHOLE) == Lookup(ms[3..], KEY_BLACKHOLE);
    assert Lookup(ms[1..], KEY_BLACKHOLE) == Lookup(ms[2..], KEY_BLACKHOLE);
  }

  /** What the finder reads of the saved file, key by key: the interface UID and the channel always, the
      gain and the BlackHole UID unless the interface UID forms their key, and then the channel. */
  lemma SavedValuesFound(c: Settings, ff: FloatFormat)
    requires ValidSettings(c) && ValidFormat(ff)
    ensures var text := Printed(c, ff);
      && FindValue(text, "interface_uid") == Some(Found(c.interfaceUid, true))
      && FindValue(text, "in_channel") == Some(Found(Decimal(c.inChannel), false))
      && FindValue(text, "gain_db")
         == Some(Found(if Forms(c.interfaceUid, "gain_db") then Decimal(c.inChannel) else ff.printG(c.gainDb), false))
      && FindValue(text, "blackhole_uid")
         == Some(if Forms(c.interfaceUid, "blackhole_uid") then Found(Decimal(c.inChannel), false) else Found(c.blackholeUid, true))
  {
    hide FindValue, Lookup, Forms, Printed;
    var ms := ConfigMembers(c, ff);
    PrintedIsFlat(c, ff);
    ConfigMembersValid(c, ff);
    KeysArePlain();
    LookupInSaved(c, ff);
    FindValueIsLookup(OPEN, ms, "interface_uid");
    FindValueIsLookup(OPEN, ms, "in_channel");
    FindValueIsLookup(OPEN, ms, "gain_db");
    FindValueIsLookup(OPEN, ms, "blackhole_uid");
  }

  /** The configuration a caller expects back: the gain as printed, an empty BlackHole UID
      replaced by the default. */
  function Expected(c: Settings, ff: FloatFormat): Settings {
    Settings(c.interfaceUid, c.inChannel, ff.strtod(ff.printG(c.gainDb)),
             if c.blackholeUid == "" then DEFAULT_BLACKHOLE_UID else c.blackholeUid)
  }

  /** The round trip holds exactly when the interface UID does not redirect the gain or the
      BlackHole UID to a channel number that differs from it. A UID that ends in the quoted
      channel key does no harm. */
  lemma RoundTripExact(c: Settings, ff: FloatFormat)
    requires ValidSettings(c) && ValidFormat(ff)
    ensures LoadBytes(Printed(c, ff), ff) == Expected(c, ff) <==>
      && (Forms(c.interfaceUid, KEY_GAIN) ==> ff.strtod(Decimal(c.inChannel)) == ff.strtod(ff.printG(c.gainDb)))
      && (Forms(c.interfaceUid, KEY_BLACKHOLE) ==> Decimal(c.inChannel) == Expected(c, ff).blackholeUid)
  {
    LoadAfterSave(c, ff);
  }

  /** A configuration that does not survive: the interface UID is the word gain_db. */
  lemma RoundTripFails(ff: FloatFormat)
    requires ValidFormat(ff) && ff.strtod("7") == Num(7.0) && ff.strtod(ff.printG(Num(2.0))) == Num(2.0)
    ensures var c := Settings("gain_db", 7, Num(2.0), DEFAULT_BLACKHOLE_UID);
      ValidSettings(c) && LoadBytes(Printed(c, ff), ff) == c.(gainDb := Num(7.0))
  {
    var c := Settings("gain_db", 7, Num(2.0), DEFAULT_BLACKHOLE_UID);
    LoadAfterSave(c, ff);
    FormsItself("gain_db");
    assert !Forms(c.interfaceUid, KEY_BLACKHOLE);
    assert Decimal(7) == "7";
  }

  /** In the saved file strstr() meets each key at its own line exactly when the interface UID
      neither is nor ends in a quote and that key; the BlackHole UID can never interfere. */
  lemma SavedKeysFoundExactly(c: Settings, ff: FloatFormat, k: nat)
    requires ValidSettings(c) && ValidFormat(ff) && k < 4
    ensures var ms := ConfigMembers(c, ff);
      StrStr(Printed(c, ff), Needle(ms[k].key)) == Some(KeyOffset(OPEN, ms, k))
      <==> (k == 0 || !Forms(c.interfaceUid, ms[k].key))
  {
    var ms := ConfigMembers(c, ff);
    PrintedIsFlat(c, ff);
    ConfigMembersValid(c, ff);
    FirstOccurrenceExact(OPEN, ms, k);
    OnlyInterfaceForms(c, ff, k);
  }

  /** Of the values printed before a later key only the interface UID can form it. */
  lemma OnlyInterfaceForms(c: Settings, ff: FloatFormat, k: nat)
    requires k < 4
    ensures var ms := ConfigMembers(c, ff);
      FormsBefore(ms, k, ms[k].key) <==> k > 0 && Forms(c.interfaceUid, ms[k].key)
  {
    var ms := ConfigMembers(c, ff);
    assert ms[0].value == Str(c.interfaceUid) && ms[1].value.Bare? && ms[2].value.Bare?;
    if k > 0 && Forms(c.interfaceUid, ms[k].key) {
      assert FormsKey(ms[0], ms[k].key);
    }
  }
}
