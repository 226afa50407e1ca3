/** The commands of main.c that rest on the configuration: setup, gain and run. */
module Commands {
  import opened CStrings
  import opened Numbers
  import opened Json
  import opened FlatObject
  import opened Config
  import opened RoundTrip
  import opened Aggregate

  // ---- setup --------------------------------------------------------------

  function FirstFlagged(devs: seq<Device>): (d: Option<Device>)
    ensures d.Some? ==> d.value in devs && d.value.isBlackhole
    ensures d.None? ==> forall i :: 0 <= i < |devs| ==> !devs[i].isBlackhole
  {
    if devs == [] then None
    else if devs[0].isBlackhole then Some(devs[0])
    else
      assert forall i :: 1 <= i < |devs| ==> devs[i] == devs[1..][i - 1];
      FirstFlagged(devs[1..])
  }

  lemma {:induction false} FirstFlaggedAt(devs: seq<Device>, i: nat)
    requires i < |devs| && devs[i].isBlackhole
    requires forall j :: 0 <= j < i ==> !devs[j].isBlackhole
    ensures FirstFlagged(devs) == Some(devs[i])
  {
    if i > 0 { FirstFlaggedAt(devs[1..], i - 1); }
  }

  /** An exact UID match wins over the first device flagged as BlackHole. */
  function BlackholeOf(devs: seq<Device>, preferred: string): (r: Option<Device>)
    ensures r.Some? ==> r.value in devs && (r.value.uid == preferred || r.value.isBlackhole)
    ensures preferred != "" && (exists i :: 0 <= i < |devs| && devs[i].uid == preferred) ==> r.Some? && r.value.uid == preferred
    ensures r.None? ==> forall i :: 0 <= i < |devs| ==> !devs[i].isBlackhole && (preferred == "" || devs[i].uid != preferred)
  {
    if preferred != "" && FirstWithUid(devs, preferred).Some? then FirstWithUid(devs, preferred)
    else FirstFlagged(devs)
  }

  /** Which device is taken: the first with the preferred UID, if that is not empty and one has it, and
      else the first flagged one. */
  lemma BlackholeExact(devs: seq<Device>, preferred: string, i: nat)
    requires i < |devs|
    ensures var named := devs[i].uid == preferred && (forall j :: 0 <= j < i ==> devs[j].uid != preferred);
      preferred != "" && named ==> BlackholeOf(devs, preferred) == Some(devs[i])
    ensures var noneNamed := preferred == "" || (forall j :: 0 <= j < |devs| ==> devs[j].uid != preferred);
      var flagged := devs[i].isBlackhole && (forall j :: 0 <= j < i ==> !devs[j].isBlackhole);
      noneNamed && flagged ==> BlackholeOf(devs, preferred) == Some(devs[i])
  {
    if devs[i].uid == preferred && forall j :: 0 <= j < i ==> devs[j].uid != preferred { FirstWithUidAt(devs, preferred, i); }
    if devs[i].isBlackhole && forall j :: 0 <= j < i ==> !devs[j].isBlackhole { FirstFlaggedAt(devs, i); }
  }

  /** find_blackhole */
  method FindBlackhole(devs: seq<Device>, preferred: string) returns (d: Option<Device>)
    ensures d == BlackholeOf(devs, preferred)
  {
    if preferred != "" {
      for i := 0 to |devs|
        invariant forall j :: 0 <= j < i ==> devs[j].uid != preferred
      {
        if devs[i].uid == preferred {
          FirstWithUidAt(devs, preferred, i);
          return Some(devs[i]);
        }
      }
    }
    for i := 0 to |devs|
      invariant forall j :: 0 <= j < i ==> !devs[j].isBlackhole
    {
      if devs[i].isBlackhole {
        FirstFlaggedAt(devs, i);
        return Some(devs[i]);
      }
    }
    return None;
  }

  /** The channel is one of the interface's own inputs. */
  predicate ChannelInRange(channel: int32, d: Device) {
    0 <= channel < d.inChannels
  }

  /** What setup_noninteractive returns; `seen` is None when enumeration fails. */
  function SetupCode(c: Settings, seen: Option<seq<Device>>): int {
    if seen.None? then 1
    else
      var iface := FirstWithUid(seen.value, c.interfaceUid);
      if iface.None? || !ChannelInRange(c.inChannel, iface.value) then 1
      else if BlackholeOf(seen.value, c.blackholeUid).None? then 3
      else 0
  }

  /** The settings setup accepts: the BlackHole UID is that of the device found. */
  function SetupSettings(c: Settings, devs: seq<Device>): Settings
    requires SetupCode(c, Some(devs)) == 0
  {
    c.(blackholeUid := Truncate(BlackholeOf(devs, c.blackholeUid).value.uid, UID_SIZE))
  }

  /** setup_noninteractive */
  method SetupNoninteractive(cfg: ConfigStruct, seen: Option<seq<Device>>) returns (rc: int)
    modifies cfg
    ensures rc == SetupCode(old(cfg.Value()), seen)
    ensures cfg.Value() == if rc == 0 then SetupSettings(old(cfg.Value()), seen.value) else old(cfg.Value())
  {
    if seen.None? { return 1; }
    var devs := seen.value;
    var iface: Option<Device> := None;
    for i := 0 to |devs|
      invariant iface == None && forall j :: 0 <= j < i ==> devs[j].uid != cfg.interfaceUid
    {
      if devs[i].uid == cfg.interfaceUid {
        FirstWithUidAt(devs, cfg.interfaceUid, i);
        iface := Some(devs[i]);
        break;
      }
    }
    if iface == None { return 1; }
    if cfg.inChannel < 0 || ToUint32(cfg.inChannel) >= iface.value.inChannels { return 1; }
    var bh := FindBlackhole(devs, cfg.blackholeUid);
    if bh == None { return 3; }
    cfg.blackholeUid := Truncate(bh.value.uid, UID_SIZE);
    return 0;
  }

  /** Setup accepts exactly an interface that is present with the channel among its own inputs and a
      BlackHole that is named or flagged; 3 means that only BlackHole is missing. */
  lemma SetupOutcomes(c: Settings, devs: seq<Device>)
    ensures var iface := FirstWithUid(devs, c.interfaceUid);
      var channelOk := iface.Some? && 0 <= c.inChannel < iface.value.inChannels;
      var bhThere := exists i :: 0 <= i < |devs| && (devs[i].isBlackhole || (c.blackholeUid != "" && devs[i].uid == c.blackholeUid));
      SetupCode(c, Some(devs)) == if !channelOk then 1 else if bhThere then 0 else 3
    ensures SetupCode(c, None) == 1
  {
    var bh := BlackholeOf(devs, c.blackholeUid);
    if bh.Some? {
      var i :| 0 <= i < |devs| && devs[i] == bh.value;
      assert devs[i].isBlackhole || (c.blackholeUid != "" && devs[i].uid == c.blackholeUid);
    }
  }

  /** What setup saves: everything as it was, but as BlackHole UID that of the device that was taken, cut
      to 255 characters. A named BlackHole that is present stays. */
  lemma SetupSaves(c: Settings, devs: seq<Device>)
    requires SetupCode(c, Some(devs)) == 0
    ensures var c' := SetupSettings(c, devs);
      && c'.interfaceUid == c.interfaceUid && c'.inChannel == c.inChannel && c'.gainDb == c.gainDb
      && (exists d :: d in devs && c'.blackholeUid == Cut(d.uid, 255)
            && (d.isBlackhole || (c.blackholeUid != "" && d.uid == c.blackholeUid)))
    ensures var named := c.blackholeUid != "" && (exists i :: 0 <= i < |devs| && devs[i].uid == c.blackholeUid);
      named && |c.blackholeUid| <= 255 ==> SetupSettings(c, devs) == c
  {
    var d := BlackholeOf(devs, c.blackholeUid).value;
    assert d in devs && Truncate(d.uid, UID_SIZE) == Cut(d.uid, 255);
  }

  // ---- gain ---------------------------------------------------------------

  const GAIN_MIN: Double := Num(-60.0)
  const GAIN_MAX: Double := Num(24.0)

  /** The range check of `gain`: it refuses what is below or above the band, so NaN passes. */
  predicate InBand(db: Double) {
    !Less(db, GAIN_MIN) && !Less(GAIN_MAX, db)
  }

  /** The gain a `gain` command accepts; `number` is strtod on the whole argument, None if that is
      not a number to its last character. */
  function AcceptedGain(argv: seq<string>, number: string -> Option<Double>): Option<Double> {
    if argv == [] || argv[0] == "--help" || argv[0] == "-h" then None
    else
      var db := number(argv[0]);
      if db.None? || !InBand(db.value) then None else db
  }

  function GainCode(argv: seq<string>, number: string -> Option<Double>, content: Option<seq<char>>,
                    rio: ReadOutcome, wio: WriteOutcome): int {
    if argv == [] then 2
    else if argv[0] == "--help" || argv[0] == "-h" then 0
    else if AcceptedGain(argv, number).None? then 2
    else if LoadStatus(content, rio) == CONFIG_ERROR || wio != Written then 1
    else 0
  }

  /** The file after a `gain` command where `l` was loaded: only an accepted gain touches it. */
  function GainWrites(argv: seq<string>, number: string -> Option<Double>, content: Option<seq<char>>, l: Settings,
                      rio: ReadOutcome, wio: WriteOutcome, ff: FloatFormat): Option<seq<char>> {
    var db := AcceptedGain(argv, number);
    if db.None? || LoadStatus(content, rio) == CONFIG_ERROR then content
    else SavedContent(content, l.(gainDb := db.value), wio, ff)
  }

  function GainContent(argv: seq<string>, number: string -> Option<Double>, content: Option<seq<char>>,
                       rio: ReadOutcome, wio: WriteOutcome, ff: FloatFormat): Option<seq<char>> {
    GainWrites(argv, number, content, Loaded(content, rio, ff), rio, wio, ff)
  }

  /** cmd_gain up to the reload of the agent. */
  method CmdGain(argv: seq<string>, number: string -> Option<Double>, file: ConfigFile,
                 rio: ReadOutcome, wio: WriteOutcome, ff: FloatFormat) returns (rc: int)
    modifies file
    ensures rc == GainCode(argv, number, old(file.content), rio, wio)
    ensures file.content == GainContent(argv, number, old(file.content), rio, wio, ff)
  {
    hide Loaded, Printed;
    if |argv| < 1 { return 2; }
    if argv[0] == "--help" || argv[0] == "-h" { return 0; }
    var db := number(argv[0]);
    if db.None? { return 2; }
    if Less(db.value, GAIN_MIN) || Less(GAIN_MAX, db.value) { return 2; }
    var cfg := new ConfigStruct();
    var status := Load(cfg, file.content, rio, ff);
    if status == CONFIG_ERROR { return 1; }
    cfg.gainDb := db.value;
    var saved := file.Save(cfg, wio, ff);
    if saved != 0 { return 1; }
    return 0;
  }

  /** A number from -60 to 24 dB, or NaN. */
  predicate Acceptable(db: Double) {
    db.NaN? || (db.Num? && -60.0 <= db.value <= 24.0)
  }

  lemma InBandExact(db: Double)
    ensures InBand(db) <==> Acceptable(db)
  {
  }

  /** The configuration can be read, or there is none yet. */
  predicate CanLoad(content: Option<seq<char>>, rio: ReadOutcome) {
    rio != NoHome && rio != CannotOpen && (content.Some? ==> rio == Readable)
  }

  predicate AsksHelp(argv: seq<string>) {
    argv != [] && (argv[0] == "--help" || argv[0] == "-h")
  }

  /** The result of `gain`, exactly: 0 for help and for an acceptable number that could be saved in a
      configuration that could be read, 1 if reading or saving failed, and 2 without an argument, for
      what is not a number and for a number outside the band. */
  lemma GainCodeExact(argv: seq<string>, number: string -> Option<Double>, content: Option<seq<char>>,
                      rio: ReadOutcome, wio: WriteOutcome)
    ensures AsksHelp(argv) ==> GainCode(argv, number, content, rio, wio) == 0
    ensures !AsksHelp(argv) ==>
      var accepted := argv != [] && number(argv[0]).Some? && Acceptable(number(argv[0]).value);
      GainCode(argv, number, content, rio, wio)
        == if !accepted then 2 else if CanLoad(content, rio) && wio == Written then 0 else 1
  {
  }

  /** The file after `gain`, exactly: untouched unless the number is acceptable, the configuration could be
      read and the file created; then the printed configuration with that gain, or a prefix of it if
      writing failed. */
  lemma GainFileExact(argv: seq<string>, number: string -> Option<Double>, content: Option<seq<char>>, l: Settings,
                      rio: ReadOutcome, wio: WriteOutcome, ff: FloatFormat)
    requires l == Loaded(content, rio, ff)
    ensures var accepted := argv != [] && !AsksHelp(argv) && number(argv[0]).Some? && Acceptable(number(argv[0]).value);
      var after := GainContent(argv, number, content, rio, wio, ff);
      if !accepted || !CanLoad(content, rio) || wio == CannotCreate then after == content
      else
        var text := Printed(l.(gainDb := number(argv[0]).value), ff);
        && after.Some? && after.value <= text
        && (wio == Written ==> after.value == text) && (wio.Partial? && wio.kept <= |text| ==> |after.value| == wio.kept)
  {
    hide Loaded, Printed;
    var g := AcceptedGain(argv, number);
    if g.Some? { InBandExact(g.value); }
  }

  /** Whatever fails, only a number between -60 and 24 dB or NaN can change the file, and then only
      in a configuration that could be read. */
  lemma GainChangesFileOnlyIfAccepted(argv: seq<string>, number: string -> Option<Double>, content: Option<seq<char>>,
                                      rio: ReadOutcome, wio: WriteOutcome, ff: FloatFormat)
    requires GainContent(argv, number, content, rio, wio, ff) != content
    ensures argv != [] && number(argv[0]).Some? && Acceptable(number(argv[0]).value)
    ensures rio != NoHome && rio != CannotOpen && (content.Some? ==> rio == Readable) && wio != CannotCreate
    ensures GainCode(argv, number, content, rio, wio) == if wio == Written then 0 else 1
  {
  }

  /** The file a successful gain update writes where the configuration `l` was loaded. */
  function GainSaved(l: Settings, g: Double, ff: FloatFormat): Option<seq<char>> {
    Some(Printed(l.(gainDb := g), ff))
  }

  /** The file after a sequence of successful gain updates. */
  function AfterGains(content: Option<seq<char>>, gains: seq<Double>, ff: FloatFormat): Option<seq<char>>
    decreases |gains|
  {
    if gains == [] then content
    else GainSaved(Loaded(AfterGains(content, gains[..|gains| - 1], ff), Readable, ff), gains[|gains| - 1], ff)
  }

  /** A command succeeds exactly with a number from -60 to 24 or with NaN. */
  lemma GainCommandSucceeds(arg: string, number: string -> Option<Double>, content: Option<seq<char>>)
    requires arg != "--help" && arg != "-h"
    ensures GainCode([arg], number, content, Readable, Written) == 0
       <==> number(arg).Some? && Acceptable(number(arg).value)
  {
  }

  lemma AcceptedGainWrites(arg: string, number: string -> Option<Double>, content: Option<seq<char>>, l: Settings, ff: FloatFormat)
    ensures var g := AcceptedGain([arg], number);
      GainWrites([arg], number, content, l, Readable, Written, ff) == if g.Some? then GainSaved(l, g.value, ff) else content
  {
  }

  /** The file after the commands `gain a` for each `a` of `args`. */
  function AfterCommands(content: Option<seq<char>>, args: seq<string>, number: string -> Option<Double>, ff: FloatFormat): Option<seq<char>>
    decreases |args|
  {
    if args == [] then content
    else GainContent([args[|args| - 1]], number, AfterCommands(content, args[..|args| - 1], number, ff), Readable, Written, ff)
  }

  function AcceptedGains(args: seq<string>, number: string -> Option<Double>): seq<Double>
    decreases |args|
  {
    if args == [] then []
    else
      var g := AcceptedGain([args[|args| - 1]], number);
      AcceptedGains(args[..|args| - 1], number) + if g.Some? then [g.value] else []
  }

  lemma AfterGainsSnoc(content: Option<seq<char>>, gains: seq<Double>, g: Double, l: Settings, ff: FloatFormat)
    requires l == Loaded(AfterGains(content, gains, ff), Readable, ff)
    ensures AfterGains(content, gains + [g], ff) == GainSaved(l, g, ff)
  {
    hide Loaded, GainSaved;
    assert (gains + [g])[..|gains|] == gains;
  }

  /** Any sequence of commands is the sequence of updates with the gains it accepts. */
  lemma {:induction false} GainCommandsAreUpdates(content: Option<seq<char>>, args: seq<string>, number: string -> Option<Double>,
                                                  ff: FloatFormat)
    ensures AfterCommands(content, args, number, ff) == AfterGains(content, AcceptedGains(args, number), ff)
    decreases |args|
  {
    hide Loaded, GainSaved, GainWrites;
    if args != [] {
      var init, arg := args[..|args| - 1], args[|args| - 1];
      GainCommandsAreUpdates(content, init, number, ff);
      var gains, g := AcceptedGains(init, number), AcceptedGain([arg], number);
      var before := AfterCommands(content, init, number, ff);
      var l := Loaded(before, Readable, ff);
      AcceptedGainWrites(arg, number, before, l, ff);
      if g.Some? {
        AfterGainsSnoc(content, gains, g.value, l, ff);
      } else {
        assert gains + [] == gains;
      }
    }
  }

  /** The settings after gain updates of which `last` was the final one: the interface UID and the
      channel stay; the gain is the last one as printed and the BlackHole UID stays, unless the
      interface UID ends in the respective quoted key: then the channel number is read instead. */
  function Updated(c: Settings, last: Double, ff: FloatFormat): Settings {
    Settings(
      c.interfaceUid, c.inChannel,
      if Forms(c.interfaceUid, KEY_GAIN) then ff.strtod(Decimal(c.inChannel)) else ff.strtod(ff.printG(last)),
      if Forms(c.interfaceUid, KEY_BLACKHOLE) then Decimal(c.inChannel) else c.blackholeUid)
  }

  lemma UpdateOnce(l: Settings, g: Double, ff: FloatFormat)
    requires ValidFormat(ff) && ValidSettings(l) && l.blackholeUid != ""
    ensures Loaded(GainSaved(l, g, ff), Readable, ff) == Updated(l, g, ff)
  {
    hide Printed, LoadBytes, Reloaded, Updated;
    LoadAfterSave(l.(gainDb := g), ff);
    ReloadedIsUpdated(l, g, ff);
  }

  lemma ReloadedIsUpdated(l: Settings, g: Double, ff: FloatFormat)
    requires l.blackholeUid != ""
    ensures Reloaded(l.(gainDb := g), ff) == Updated(l, g, ff)
  {
  }

  lemma UpdateAgain(c: Settings, g: Double, last: Double, ff: FloatFormat)
    ensures Updated(Updated(c, g, ff), last, ff) == Updated(c, last, ff)
  {
  }

  /** Any sequence of gain updates on any file. */
  lemma {:induction false} GainUpdates(content: Option<seq<char>>, gains: seq<Double>, ff: FloatFormat)
    requires ValidFormat(ff) && gains != []
    ensures Loaded(AfterGains(content, gains, ff), Readable, ff)
         == Updated(Loaded(content, Readable, ff), gains[|gains| - 1], ff)
    decreases |gains|
  {
    var init := gains[..|gains| - 1];
    UpdateOnce(Loaded(AfterGains(content, init, ff), Readable, ff), gains[|gains| - 1], ff);
    if init != [] {
      GainUpdates(content, init, ff);
      UpdateAgain(Loaded(content, Readable, ff), init[|init| - 1], gains[|gains| - 1], ff);
    }
  }

  /** The gain command promises to set the gain and to preserve every other field. The other fields
      are preserved exactly if the interface UID does not end in the quoted BlackHole key or the
      BlackHole UID happens to be the channel number; the gain is the last one as printed exactly
      if the interface UID does not end in the quoted gain key or the channel number reads alike. */
  lemma GainPreservesExactly(content: Option<seq<char>>, gains: seq<Double>, ff: FloatFormat)
    requires ValidFormat(ff) && gains != []
    ensures var c := Loaded(content, Readable, ff);
      var c' := Loaded(AfterGains(content, gains, ff), Readable, ff);
      var printed := ff.strtod(ff.printG(gains[|gains| - 1]));
      && (c' == c.(gainDb := c'.gainDb) <==> (Forms(c.interfaceUid, KEY_BLACKHOLE) ==> c.blackholeUid == Decimal(c.inChannel)))
      && (c'.gainDb == printed <==> (Forms(c.interfaceUid, KEY_GAIN) ==> ff.strtod(Decimal(c.inChannel)) == printed))
  {
    GainUpdates(content, gains, ff);
  }

  /** On a file that save wrote, every other field is preserved without any condition: a BlackHole
      UID that can be redirected has been the channel number since the first load. */
  lemma GainPreservesWritten(c: Settings, gains: seq<Double>, ff: FloatFormat)
    requires ValidSettings(c) && ValidFormat(ff) && gains != []
    ensures var l := Loaded(Some(Printed(c, ff)), Readable, ff);
      var l' := Loaded(AfterGains(Some(Printed(c, ff)), gains, ff), Readable, ff);
      l' == l.(gainDb := l'.gainDb)
  {
    LoadAfterSave(c, ff);
    GainPreservesExactly(Some(Printed(c, ff)), gains, ff);
  }

  /** A saved configuration and what it loads as. */
  lemma SavedFile(c: Settings, ff: FloatFormat) returns (file: Option<seq<char>>)
    requires ValidSettings(c) && ValidFormat(ff)
    ensures Loaded(file, Readable, ff) == Reloaded(c, ff)
  {
    hide LoadBytes, Printed, Reloaded;
    file := Some(Printed(c, ff));
    LoadAfterSave(c, ff);
  }

  /** A successful gain command on a file that loads as `l`. */
  lemma GainCommandOnFile(arg: string, number: string -> Option<Double>, before: Option<seq<char>>, l: Settings, ff: FloatFormat)
    returns (after: Option<seq<char>>)
    requires ValidFormat(ff) && l == Loaded(before, Readable, ff)
    requires AcceptedGain([arg], number).Some?
    ensures GainCode([arg], number, before, Readable, Written) == 0
    ensures after == GainContent([arg], number, before, Readable, Written, ff)
    ensures after == GainSaved(l, number(arg).value, ff)
    ensures Loaded(after, Readable, ff) == Updated(l, number(arg).value, ff)
  {
    hide Loaded, GainSaved, GainWrites, Updated;
    GainCommandSucceeds(arg, number, before);
    AcceptedGainWrites(arg, number, before, l, ff);
    after := GainSaved(l, number(arg).value, ff);
    UpdateOnce(l, number(arg).value, ff);
  }

  lemma ShortArgumentIsAccepted(arg: string, number: string -> Option<Double>)
    requires |arg| == 1 || |arg| == 3
    requires number(arg).Some? && Acceptable(number(arg).value)
    ensures AcceptedGain([arg], number) == number(arg)
  {
    assert |"--help"| == 6 && |"-h"| == 2;
  }

  /** `gain nan` is accepted: on any file that can be read it reports success and saves NaN. */
  lemma GainAcceptsNaN(number: string -> Option<Double>, before: Option<seq<char>>, ff: FloatFormat) returns (after: Option<seq<char>>)
    requires ValidFormat(ff) && number("nan") == Some(NaN)
    ensures GainCode(["nan"], number, before, Readable, Written) == 0
    ensures after == GainContent(["nan"], number, before, Readable, Written, ff)
    ensures after == GainSaved(Loaded(before, Readable, ff), NaN, ff)
  {
    ShortArgumentIsAccepted("nan", number);
    after := GainCommandOnFile("nan", number, before, Loaded(before, Readable, ff), ff);
  }

  /** Save, then a gain command: what is loaded before and after. */
  lemma GainAfterSave(c: Settings, arg: string, number: string -> Option<Double>, ff: FloatFormat)
    returns (before: Option<seq<char>>, after: Option<seq<char>>)
    requires ValidSettings(c) && ValidFormat(ff) && AcceptedGain([arg], number).Some?
    ensures Loaded(before, Readable, ff) == Reloaded(c, ff)
    ensures GainCode([arg], number, before, Readable, Written) == 0
    ensures after == GainContent([arg], number, before, Readable, Written, ff)
    ensures Loaded(after, Readable, ff) == Updated(Reloaded(c, ff), number(arg).value, ff)
  {
    hide Loaded, Reloaded, Updated, GainContent, GainCode;
    before := SavedFile(c, ff);
    after := GainCommandOnFile(arg, number, before, Reloaded(c, ff), ff);
  }

  /** A gain command that succeeds and has no effect: save writes the interface UID gain_db and
      channel 7, `gain 3` reports success, and the gain that is loaded afterwards is 7. */
  lemma GainCommandIsLost(number: string -> Option<Double>, ff: FloatFormat)
    returns (before: Option<seq<char>>, after: Option<seq<char>>)
    requires ValidFormat(ff) && number("3") == Some(Num(3.0)) && ff.strtod("7") == Num(7.0)
    ensures Loaded(before, Readable, ff) == Settings("gain_db", 7, Num(7.0), DEFAULT_BLACKHOLE_UID)
    ensures GainCode(["3"], number, before, Readable, Written) == 0
    ensures after == GainContent(["3"], number, before, Readable, Written, ff)
    ensures Loaded(after, Readable, ff).gainDb == Num(7.0)
  {
    ShortArgumentIsAccepted("3", number);
    var c := RedirectsGain(ff);
    before, after := GainAfterSave(c, "3", number, ff);
  }

  lemma RedirectsGain(ff: FloatFormat) returns (c: Settings)
    requires ff.strtod("7") == Num(7.0)
    ensures ValidSettings(c)
    ensures Reloaded(c, ff) == Settings("gain_db", 7, Num(7.0), DEFAULT_BLACKHOLE_UID)
    ensures Updated(Reloaded(c, ff), Num(3.0), ff).gainDb == Num(7.0)
  {
    c := Settings("gain_db", 7, Num(2.0), DEFAULT_BLACKHOLE_UID);
    FormsItself("gain_db");
    assert Decimal(7) == "7";
    assert !Forms("gain_db", KEY_BLACKHOLE);
  }

  /** A gain command that replaces the BlackHole UID: a file whose BlackHole line stands
      before that of the interface, whose UID is the BlackHole key, loads as "bh", and after `gain 3`
      as the channel number. */
  lemma GainReplacesBlackhole(number: string -> Option<Double>, ff: FloatFormat)
    returns (before: Option<seq<char>>, after: Option<seq<char>>)
    requires ValidFormat(ff) && number("3") == Some(Num(3.0))
    ensures Loaded(before, Readable, ff) == Settings(KEY_BLACKHOLE, 7, DEFAULT_GAIN_DB, "bh")
    ensures GainCode(["3"], number, before, Readable, Written) == 0
    ensures after == GainContent(["3"], number, before, Readable, Written, ff)
    ensures Loaded(after, Readable, ff).blackholeUid == "7"
  {
    ShortArgumentIsAccepted("3", number);
    RedirectsBlackhole(ff);
    before := ReorderedFile(ff);
    after := GainCommandOnFile("3", number, before, Settings(KEY_BLACKHOLE, 7, DEFAULT_GAIN_DB, "bh"), ff);
  }

  lemma RedirectsBlackhole(ff: FloatFormat)
    ensures Updated(Settings(KEY_BLACKHOLE, 7, DEFAULT_GAIN_DB, "bh"), Num(3.0), ff).blackholeUid == "7"
  {
    FormsItself(KEY_BLACKHOLE);
    assert Decimal(7) == "7";
  }

  lemma ReorderedFile(ff: FloatFormat) returns (file: Option<seq<char>>)
    ensures Loaded(file, Readable, ff) == Settings(KEY_BLACKHOLE, 7, DEFAULT_GAIN_DB, "bh")
  {
    var ms := ReorderedMembers();
    ReorderedFields(ff);
    file := FlatFile(OPEN, ms, Some(Found(KEY_BLACKHOLE, true)), Some(Found("bh", true)), Some(Found("7", false)), None, ff);
  }

  /** A file made of flat members and what it loads as. */
  lemma FlatFile(open: string, ms: seq<Member>, iface: Option<Found>, bh: Option<Found>, channel: Option<Found>, gain: Option<Found>,
                 ff: FloatFormat) returns (file: Option<seq<char>>)
    requires NulFree(open) && QuoteFree(open) && ValidMembers(ms) && |Render(open, ms)| < FILE_SIZE
    requires Lookup(ms, KEY_INTERFACE) == iface && Lookup(ms, KEY_BLACKHOLE) == bh
    requires Lookup(ms, KEY_CHANNEL) == channel && Lookup(ms, KEY_GAIN) == gain
    ensures (iface.Some? ==> NulFree(iface.value.text)) && (bh.Some? ==> NulFree(bh.value.text))
    ensures Loaded(file, Readable, ff) == Overlay(iface, bh, channel, gain, ff)
  {
    file := Some(Render(open, ms));
    LoadOfFlatFile(Render(open, ms), open, ms, ff);
  }

  lemma ReorderedFields(ff: FloatFormat)
    ensures Overlay(Some(Found(KEY_BLACKHOLE, true)), Some(Found("bh", true)), Some(Found("7", false)), None, ff)
         == Settings(KEY_BLACKHOLE, 7, DEFAULT_GAIN_DB, "bh")
  {
    DecimalRoundTrip(7);
    assert Decimal(7) == "7";
  }

  lemma ReorderedMembers() returns (ms: seq<Member>)
    ensures ValidMembers(ms) && |Render(OPEN, ms)| < FILE_SIZE
    ensures Lookup(ms, KEY_BLACKHOLE) == Some(Found("bh", true))
    ensures Lookup(ms, KEY_INTERFACE) == Some(Found(KEY_BLACKHOLE, true))
    ensures Lookup(ms, KEY_CHANNEL) == Some(Found("7", false))
    ensures Lookup(ms, KEY_GAIN) == None
  {
    ms := [ Member(KEY_BLACKHOLE, "", " ", Str("bh"), ",\n  "),
            Member(KEY_INTERFACE, "", " ", Str(KEY_BLACKHOLE), ",\n  "),
            Member(KEY_CHANNEL, "", " ", Bare("7"), "\n}\n") ];
    ReorderedValid(ms[0], ms[1], ms[2]);
    ThreeMembersFit(ms);
    ReorderedLookups(ms);
  }

  lemma ReorderedValid(m0: Member, m1: Member, m2: Member)
    requires m0 == Member(KEY_BLACKHOLE, "", " ", Str("bh"), ",\n  ")
    requires m1 == Member(KEY_INTERFACE, "", " ", Str(KEY_BLACKHOLE), ",\n  ")
    requires m2 == Member(KEY_CHANNEL, "", " ", Bare("7"), "\n}\n")
    ensures ValidMember(m0) && ValidMember(m1) && ValidMember(m2)
    ensures MemberSize(m0) <= 100 && MemberSize(m1) <= 100 && MemberSize(m2) <= 100
  {
    KeysArePlain();
  }

  lemma ThreeMembersFit(ms: seq<Member>)
    requires |ms| == 3 && MemberSize(ms[0]) <= 100 && MemberSize(ms[1]) <= 100 && MemberSize(ms[2]) <= 100
    ensures |Render(OPEN, ms)| < FILE_SIZE
  {
    MembersLengthBound(ms);
    assert MembersSize(ms[2..]) == MemberSize(ms[2]) + MembersSize(ms[2..][1..]) && ms[2..][1..] == [];
    assert ms[1..][1..] == ms[2..];
    assert MembersSize(ms[1..]) == MemberSize(ms[1]) + MembersSize(ms[2..]);
  }

  lemma TooShortToForm()
    ensures !Forms("bh", KEY_INTERFACE) && !Forms("bh", KEY_CHANNEL) && !Forms("bh", KEY_GAIN)
  {
  }

  lemma BlackholeFormsNoNumber()
    ensures !Forms(KEY_BLACKHOLE, KEY_CHANNEL) && !Forms(KEY_BLACKHOLE, KEY_GAIN)
  {
    assert ([QUOTE] + KEY_BLACKHOLE)[|KEY_BLACKHOLE| - |KEY_CHANNEL|..][0] == 'a';
    assert ([QUOTE] + KEY_BLACKHOLE)[|KEY_BLACKHOLE| - |KEY_GAIN|..][0] == 'h';
  }

  lemma ReorderedLookups(ms: seq<Member>)
    requires |ms| == 3 && ms[0].key == KEY_BLACKHOLE && ms[1].key == KEY_INTERFACE && ms[2].key == KEY_CHANNEL
    requires ms[0].value == Str("bh") && ms[1].value == Str(KEY_BLACKHOLE) && ms[2].value == Bare("7")
    ensures Lookup(ms, KEY_BLACKHOLE) == Some(Found("bh", true))
    ensures Lookup(ms, KEY_INTERFACE) == Some(Found(KEY_BLACKHOLE, true))
    ensures Lookup(ms, KEY_CHANNEL) == Some(Found("7", false))
    ensures Lookup(ms, KEY_GAIN) == None
  {
    hide Forms;
    assert ms[1..][1..] == ms[2..] && ms[2..][1..] == [];
    BlackholeFormsNoNumber();
    assert !Forms("bh", KEY_INTERFACE) && !Forms("bh", KEY_CHANNEL) && !Forms("bh", KEY_GAIN) by { TooShortToForm(); }
    assert Lookup(ms[2..], KEY_CHANNEL) == Some(Found("7", false));
    assert Lookup(ms[1..], KEY_CHANNEL) == Lookup(ms[2..], KEY_CHANNEL);
    assert Lookup(ms[2..], KEY_GAIN) == None;
    assert Lookup(ms[1..], KEY_GAIN) == Lookup(ms[2..], KEY_GAIN);
  }

  // ---- run ----------------------------------------------------------------

  const ULONG_RANGE: int := 0x1_0000_0000_0000_0000

  /** The decimal a channel flag is read as: clamped to 64 bits, then cut to 32. */
  function Strtoul32(s: string): uint32 {
    var t := SkipSpaces(s);
    var negative := t != "" && t[0] == '-';
    var v := ReadDigits(0, if t != "" && (t[0] == '-' || t[0] == '+') then t[1..] else t);
    var clamped := if v >= ULONG_RANGE then ULONG_RANGE - 1 else if negative then -v else v;
    clamped % TWO_32
  }

  /** Every unsigned 32-bit number in decimal is read as itself. */
  lemma StrtoulReadsDecimal(n: uint32)
    ensures Strtoul32(Digits(n)) == n
  {
    ReadDigitsOfDigits(n);
    var t := Digits(n);
    assert IsDigit(t[0]);
  }

  /** Any number in decimal, signed or not, behind any blank space and whatever follows it: what does not
      fit 64 bits is the largest 64-bit number, a minus sign negates modulo 2^64, and of the result
      the lower 32 bits count. */
  lemma StrtoulReads(blanks: string, sign: string, n: nat, rest: string)
    requires Reads(blanks, sign, rest)
    ensures Strtoul32(blanks + sign + Digits(n) + rest)
         == if n >= 0x1_0000_0000_0000_0000 then 0xFFFF_FFFF
            else if sign == "-" then (0x1_0000_0000_0000_0000 - n) % 0x1_0000_0000
            else n % 0x1_0000_0000
  {
    hide SkipSpaces, ReadDigits, Digits;
    SignedDigits(blanks, sign, Digits(n), rest);
    ReadDigitsOfDigits(n);
    NegateModulo(n);
  }

  lemma NegateModulo(n: nat)
    ensures (0 - n) % 0x1_0000_0000 == (0x1_0000_0000_0000_0000 - n) % 0x1_0000_0000
    ensures 0xFFFF_FFFF_FFFF_FFFF % 0x1_0000_0000 == 0xFFFF_FFFF
  {
  }

  /** What `run` works with; no interface means auto-pick. */
  datatype RunOptions = RunOptions(iface: Option<string>, bh: string, inChannel: uint32, gainDb: Double, dryRun: bool)

  function FromConfig(c: Settings): RunOptions {
    RunOptions(if c.interfaceUid != "" then Some(c.interfaceUid) else None, c.blackholeUid, ToUint32(c.inChannel), c.gainDb, false)
  }

  datatype Flag = Iface(v: string) | Bh(v: string) | Channel(v: string) | GainDb(v: string) | DryRun

  function Apply(o: RunOptions, f: Flag, ff: FloatFormat): RunOptions {
    match f
    case Iface(v) => o.(iface := Some(v))
    case Bh(v) => o.(bh := v)
    case Channel(v) => o.(inChannel := Strtoul32(v))
    case GainDb(v) => o.(gainDb := ff.strtod(v))
    case DryRun => o.(dryRun := true)
  }

  function ApplyAll(o: RunOptions, flags: seq<Flag>, ff: FloatFormat): RunOptions {
    if flags == [] then o else Apply(ApplyAll(o, flags[..|flags| - 1], ff), flags[|flags| - 1], ff)
  }

  /** The flag at the front of `argv` and how many words it takes; None is a usage error. */
  function FrontFlag(argv: seq<string>): (r: Option<(Flag, nat)>)
    requires argv != []
    ensures r.Some? ==> 1 <= r.value.1 <= |argv|
  {
    if argv[0] == "--interface-uid" && 1 < |argv| then Some((Iface(argv[1]), 2))
    else if argv[0] == "--blackhole-uid" && 1 < |argv| then Some((Bh(argv[1]), 2))
    else if argv[0] == "--in-channel" && 1 < |argv| then Some((Channel(argv[1]), 2))
    else if argv[0] == "--gain-db" && 1 < |argv| then Some((GainDb(argv[1]), 2))
    else if argv[0] == "--dry-run" then Some((DryRun, 1))
    else None
  }

  /** The flags of a command line, None if a word is unknown or its value is missing. */
  function ParseFlags(argv: seq<string>): Option<seq<Flag>>
    decreases |argv|
  {
    if argv == [] then Some([])
    else
      var front := FrontFlag(argv);
      if front.None? then None
      else
        var rest := ParseFlags(argv[front.value.1..]);
        if rest.None? then None else Some([front.value.0] + rest.value)
  }

  lemma {:induction false} ApplyAllCons(o: RunOptions, f: Flag, flags: seq<Flag>, ff: FloatFormat)
    ensures ApplyAll(o, [f] + flags, ff) == ApplyAll(Apply(o, f, ff), flags, ff)
  {
    var all := [f] + flags;
    if flags == [] {
      assert all[..0] == [];
    } else {
      assert all[..|all| - 1] == [f] + flags[..|flags| - 1];
      ApplyAllCons(o, f, flags[..|flags| - 1], ff);
    }
  }

  /** The flag loop of cmd_run over what the configuration says; None is the usage error. */
  method RunFlags(c: Settings, argv: seq<string>, ff: FloatFormat) returns (o: Option<RunOptions>)
    ensures o.Some? <==> ParseFlags(argv).Some?
    ensures o.Some? ==> o.value == ApplyAll(FromConfig(c), ParseFlags(argv).value, ff)
  {
    var opts := FromConfig(c);
    var i := 0;
    while i < |argv|
      invariant i <= |argv|
      invariant ParsesLike(argv, FromConfig(c), argv[i..], opts, ff)
      decreases |argv| - i
    {
      var taken, next, changed := TakeFlag(argv, i, opts, ff);
      if !taken { return None; }
      AfterFlag(argv[i..], opts, ff);
      assert argv[i..][next - i..] == argv[next..];
      i, opts := next, changed;
    }
    o := Some(opts);
  }

  /** Both command lines are accepted or both are refused, and they lead to the same options. */
  predicate ParsesLike(argv: seq<string>, o: RunOptions, argv': seq<string>, o': RunOptions, ff: FloatFormat) {
    && (ParseFlags(argv).Some? <==> ParseFlags(argv').Some?)
    && (ParseFlags(argv).Some? ==> ApplyAll(o, ParseFlags(argv).value, ff) == ApplyAll(o', ParseFlags(argv').value, ff))
  }

  lemma AfterFlag(argv: seq<string>, o: RunOptions, ff: FloatFormat)
    requires argv != [] && FrontFlag(argv).Some?
    ensures var (f, n) := FrontFlag(argv).value; ParsesLike(argv, o, argv[n..], Apply(o, f, ff), ff)
  {
    var (f, n) := FrontFlag(argv).value;
    if ParseFlags(argv[n..]).Some? {
      ApplyAllCons(o, f, ParseFlags(argv[n..]).value, ff);
    }
  }

  /** One round of the loop: the word at `i` and the value behind it. */
  method TakeFlag(argv: seq<string>, i: nat, o: RunOptions, ff: FloatFormat) returns (taken: bool, next: nat, opts: RunOptions)
    requires i < |argv|
    ensures taken <==> FrontFlag(argv[i..]).Some?
    ensures taken ==> var (f, n) := FrontFlag(argv[i..]).value; next == i + n && opts == Apply(o, f, ff)
  {
    var a := argv[i];
    opts, next := o, i;
    if a == "--interface-uid" && i + 1 < |argv| {
      next := next + 1;
      opts := opts.(iface := Some(argv[next]));
    } else if a == "--blackhole-uid" && i + 1 < |argv| {
      next := next + 1;
      opts := opts.(bh := argv[next]);
    } else if a == "--in-channel" && i + 1 < |argv| {
      next := next + 1;
      opts := opts.(inChannel := Strtoul32(argv[next]));
    } else if a == "--gain-db" && i + 1 < |argv| {
      next := next + 1;
      opts := opts.(gainDb := ff.strtod(argv[next]));
    } else if a == "--dry-run" {
      opts := opts.(dryRun := true);
    } else {
      return false, i, o;
    }
    taken, next := true, next + 1;
  }

  function Words(f: Flag): seq<string> {
    match f
    case Iface(v) => ["--interface-uid", v]
    case Bh(v) => ["--blackhole-uid", v]
    case Channel(v) => ["--in-channel", v]
    case GainDb(v) => ["--gain-db", v]
    case DryRun => ["--dry-run"]
  }

  function CommandLine(flags: seq<Flag>): seq<string> {
    if flags == [] then [] else Words(flags[0]) + CommandLine(flags[1..])
  }

  /** Any flags in any order parse back, whatever their values are. */
  lemma {:induction false} ParseCommandLine(flags: seq<Flag>)
    ensures ParseFlags(CommandLine(flags)) == Some(flags)
  {
    if flags != [] {
      ParseCommandLine(flags[1..]);
      var argv := CommandLine(flags);
      FrontOfCommandLine(flags[0], CommandLine(flags[1..]));
      assert flags == [flags[0]] + flags[1..];
    }
  }

  lemma FrontOfCommandLine(f: Flag, rest: seq<string>)
    ensures var argv := Words(f) + rest;
      FrontFlag(argv) == Some((f, |Words(f)|)) && argv[|Words(f)|..] == rest
  {
  }

  /** A command line is accepted exactly if it is made of flags, and then these are the flags it has; every
      other one is a usage error. */
  lemma {:induction false} ParseFlagsExact(argv: seq<string>)
    ensures forall flags :: ParseFlags(argv) == Some(flags) <==> argv == CommandLine(flags)
    ensures ParseFlags(argv).None? <==> forall flags :: argv != CommandLine(flags)
    decreases |argv|
  {
    if ParseFlags(argv).Some? { ParsedIsCommandLine(argv); }
    forall flags | argv == CommandLine(flags) ensures ParseFlags(argv) == Some(flags) {
      ParseCommandLine(flags);
    }
  }

  lemma FrontIsWords(argv: seq<string>)
    requires argv != [] && FrontFlag(argv).Some?
    ensures var (f, n) := FrontFlag(argv).value; argv == Words(f) + argv[n..]
  {
  }

  lemma {:induction false} ParsedIsCommandLine(argv: seq<string>)
    requires ParseFlags(argv).Some?
    ensures argv == CommandLine(ParseFlags(argv).value)
    decreases |argv|
  {
    if argv != [] {
      var (f, n) := FrontFlag(argv).value;
      FrontIsWords(argv);
      ParsedIsCommandLine(argv[n..]);
      hide FrontFlag, Words;
      var flags := ParseFlags(argv).value;
      assert flags[1..] == ParseFlags(argv[n..]).value && flags[0] == f;
    }
  }

  /** The words of the flags, and words that are none. */
  lemma FlagWords(v: string)
    ensures FrontFlag(["--interface-uid", v]) == Some((Iface(v), 2)) && FrontFlag(["--blackhole-uid", v]) == Some((Bh(v), 2))
    ensures FrontFlag(["--in-channel", v]) == Some((Channel(v), 2)) && FrontFlag(["--gain-db", v]) == Some((GainDb(v), 2))
    ensures FrontFlag(["--dry-run"]) == Some((DryRun, 1)) && FrontFlag(["--dry-run", v]) == Some((DryRun, 1))
    ensures FrontFlag(["--interface-uid"]) == None && FrontFlag(["--help"]) == None
  {
    FrontOfCommandLine(Iface(v), []);
    FrontOfCommandLine(Bh(v), []);
    FrontOfCommandLine(Channel(v), []);
    FrontOfCommandLine(GainDb(v), []);
    assert |"--help"| == 6 && |"--dry-run"| == 9;
  }

  // ---- run up to the engine -----------------------------------------------

  /** Where cmd_run gets: a result code, or the options the plan or the engine is given. */
  datatype RunStart = Fails(code: int) | Starts(options: RunOptions)

  /** cmd_run up to the plan or the engine; `picked` is what the auto-pick finds. Codes: 1 if the
      configuration cannot be read or no interface is found, 2 for a usage error. An interface is picked
      only if neither configuration nor flags name one, and never for a dry run. */
  method CmdRun(argv: seq<string>, content: Option<seq<char>>, rio: ReadOutcome, picked: Option<string>, ff: FloatFormat)
    returns (r: RunStart)
    ensures !CanLoad(content, rio) ==> r == Fails(1)
    ensures CanLoad(content, rio) && ParseFlags(argv).None? ==> r == Fails(2)
    ensures CanLoad(content, rio) && ParseFlags(argv).Some? ==>
      var o := ApplyAll(FromConfig(Loaded(content, rio, ff)), ParseFlags(argv).value, ff);
      r == if o.iface.Some? then Starts(o)
           else if o.dryRun || picked.None? then Fails(1)
           else Starts(o.(iface := picked))
  {
    var cfg := new ConfigStruct();
    var status := Load(cfg, content, rio, ff);
    if status == CONFIG_ERROR { return Fails(1); }
    var opts := RunFlags(cfg.Value(), argv, ff);
    if opts.None? { return Fails(2); }
    var o := opts.value;
    if o.iface.None? {
      if o.dryRun { return Fails(1); }
      if picked.None? { return Fails(1); }
      o := o.(iface := picked);
    }
    return Starts(o);
  }

  predicate SameKind(f: Flag, g: Flag) {
    f.Iface? == g.Iface? && f.Bh? == g.Bh? && f.Channel? == g.Channel? && f.GainDb? == g.GainDb?
  }

  /** The field a flag is about. */
  predicate SameField(o: RunOptions, p: RunOptions, f: Flag) {
    match f
    case Iface(_) => o.iface == p.iface
    case Bh(_) => o.bh == p.bh
    case Channel(_) => o.inChannel == p.inChannel
    case GainDb(_) => o.gainDb == p.gainDb
    case DryRun => o.dryRun == p.dryRun
  }

  /** The options have the value the flag gives. */
  predicate Obeys(o: RunOptions, f: Flag, ff: FloatFormat) {
    match f
    case Iface(v) => o.iface == Some(v)
    case Bh(v) => o.bh == v
    case Channel(v) => o.inChannel == Strtoul32(v)
    case GainDb(v) => o.gainDb == ff.strtod(v)
    case DryRun => o.dryRun
  }

  /** Flags override the configuration, and of several flags of a kind the last one decides. */
  lemma {:induction false} LastFlagWins(o: RunOptions, flags: seq<Flag>, k: nat, ff: FloatFormat)
    requires k < |flags| && forall i :: k < i < |flags| ==> !SameKind(flags[i], flags[k])
    ensures Obeys(ApplyAll(o, flags, ff), flags[k], ff)
  {
    if k + 1 < |flags| {
      LastFlagWins(o, flags[..|flags| - 1], k, ff);
    }
  }

  /** A field no flag is about keeps its configured value. */
  lemma {:induction false} UnflaggedKeepsConfig(o: RunOptions, flags: seq<Flag>, f: Flag, ff: FloatFormat)
    requires forall i :: 0 <= i < |flags| ==> !SameKind(flags[i], f)
    ensures SameField(ApplyAll(o, flags, ff), o, f)
  {
    if flags != [] {
      UnflaggedKeepsConfig(o, flags[..|flags| - 1], f, ff);
    }
  }
}
