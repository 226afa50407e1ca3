/** What json_find_value means on the flat objects the configuration file consists of: any
    members, in any order, with any blank space around the tokens. */
module FlatObject {
  import opened CStrings
  import opened Json

  datatype Value = Str(s: string) | Bare(token: string)

  /** `"key" gap : lead value sep`, where `sep` is everything up to the next key's quote or the end
      of the file: the comma or closing brace with the blank space around it. */
  datatype Member = Member(key: string, gap: string, lead: string, value: Value, sep: string)

  predicate Blanks(s: string) {
    forall i :: 0 <= i < |s| ==> IsBlank(s[i])
  }

  /** Free of quotes, colons and NULs. */
  predicate Neutral(s: string) {
    forall i :: 0 <= i < |s| ==> s[i] != QUOTE && s[i] != ':' && s[i] != NUL
  }

  predicate IsToken(t: string) {
    t != "" && forall i :: 0 <= i < |t| ==> !EndsBare(t[i]) && t[i] != QUOTE && t[i] != NUL
  }

  predicate ValidValue(v: Value) {
    if v.Str? then NulFree(v.s) else IsToken(v.token)
  }

  predicate ValidMember(m: Member) {
    && PlainKey(m.key) && Blanks(m.gap) && Blanks(m.lead) && ValidValue(m.value)
    && m.sep != "" && EndsBare(m.sep[0]) && Neutral(m.sep)
  }

  predicate ValidMembers(ms: seq<Member>) {
    forall i :: 0 <= i < |ms| ==> ValidMember(ms[i])
  }

  // ---- printing -----------------------------------------------------------

  function Members(ms: seq<Member>): string
    decreases |ms|, 2
  {
    if ms == [] then "" else [QUOTE] + ms[0].key + [QUOTE] + AfterKey(ms)
  }

  function AfterKey(ms: seq<Member>): string
    requires ms != []
    decreases |ms|, 1
  {
    ms[0].gap + ":" + ms[0].lead + AtValue(ms)
  }

  function AtValue(ms: seq<Member>): string
    requires ms != []
    decreases |ms|, 0
  {
    match ms[0].value
    case Str(s) => Quoted(s, ms[0].sep + Members(ms[1..]))
    case Bare(t) => t + (ms[0].sep + Members(ms[1..]))
  }

  function AfterValue(ms: seq<Member>): string
    requires ms != []
  {
    ms[0].sep + Members(ms[1..])
  }

  /** The file: `open` (the brace and blank space before the first key) and the members. */
  function Render(open: string, ms: seq<Member>): string {
    open + Members(ms)
  }

  // ---- looking up ---------------------------------------------------------

  function ValueFound(v: Value): Found {
    match v
    case Str(s) => Found(s, true)
    case Bare(t) => Found(t, false)
  }

  /** The member's printed value contains the needle of the key. */
  predicate FormsKey(m: Member, key: string) {
    m.value.Str? && Forms(m.value.s, key)
  }

  /** What json_find_value answers. Scanning members in file order, the first that has the key is
      its answer; but a string value that forms the needle captures the search, which then
      answers with the value of the member behind it. */
  function Lookup(ms: seq<Member>, key: string): Option<Found> {
    if ms == [] then None
    else if ms[0].key == key then Some(ValueFound(ms[0].value))
    else if FormsKey(ms[0], key) then
      if |ms| == 1 then None else Some(ValueFound(ms[1].value))
    else Lookup(ms[1..], key)
  }

  /** Where the needle search ends up. */
  function Target(ms: seq<Member>, key: string): Option<string> {
    if ms == [] then None
    else if ms[0].key == key then Some(AfterKey(ms))
    else if FormsKey(ms[0], key) then Some(AfterValue(ms))
    else Target(ms[1..], key)
  }

  // ---- the needle search --------------------------------------------------

  /** From a quote, text with a character no key has, up to the next quote or the end. */
  lemma CrossGap(a: string, t: string, key: string, i: nat)
    requires PlainKey(key) && QuoteFree(a) && i < |a| && !KeyChar(a[i])
    requires t == "" || t[0] == QUOTE
    ensures After([QUOTE] + a + t, Needle(key)) == After(t, Needle(key))
  {
    if t == "" {
      var n := Needle(key);
      var u := [QUOTE] + a;
      assert u + t == u;
      if |n| <= |u| { assert n[|n| - 1] == QUOTE && u[|n| - 1] == a[|n| - 2]; }
      assert u[1..] == a && a + t == a;
      SkipPlain(a, t, key);
    } else {
      assert [QUOTE] + a + t == [QUOTE] + a + [QUOTE] + t[1..];
      assert [QUOTE] + t[1..] == t;
      SkipSegment(a, t[1..], key);
    }
  }

  lemma NeedleOverGapToValue(ms: seq<Member>, key: string)
    requires PlainKey(key) && ValidMembers(ms) && ms != [] && ms[0].value.Str?
    ensures After([QUOTE] + AfterKey(ms), Needle(key)) == After(AtValue(ms), Needle(key))
  {
    var m := ms[0];
    var a := m.gap + ":" + m.lead;
    assert a[|m.gap|] == ':';
    assert [QUOTE] + AfterKey(ms) == [QUOTE] + a + AtValue(ms);
    CrossGap(a, AtValue(ms), key, |m.gap|);
  }

  lemma NeedleOverBare(ms: seq<Member>, key: string)
    requires PlainKey(key) && ValidMembers(ms) && ms != [] && ms[0].value.Bare?
    ensures After([QUOTE] + AfterKey(ms), Needle(key)) == After(Members(ms[1..]), Needle(key))
  {
    var m := ms[0];
    var a := m.gap + ":" + m.lead + m.value.token + m.sep;
    assert a[|m.gap|] == ':';
    assert [QUOTE] + AfterKey(ms) == [QUOTE] + a + Members(ms[1..]);
    CrossGap(a, Members(ms[1..]), key, |m.gap|);
  }

  lemma NeedleOverStr(ms: seq<Member>, key: string)
    requires PlainKey(key) && ValidMembers(ms) && ms != [] && ms[0].value.Str?
    ensures After(AtValue(ms), Needle(key))
         == if Forms(ms[0].value.s, key) then Some(AfterValue(ms)) else After(Members(ms[1..]), Needle(key))
  {
    var m := ms[0];
    OverStrAndGap(m.value.s, m.sep, Members(ms[1..]), key);
  }

  /** A printed string value and the text behind it up to the next quote. */
  lemma OverStrAndGap(v: string, gap: string, t: string, key: string)
    requires PlainKey(key) && QuoteFree(gap) && gap != "" && !KeyChar(gap[0])
    requires t == "" || t[0] == QUOTE
    ensures After(Quoted(v, gap + t), Needle(key)) == if Forms(v, key) then Some(gap + t) else After(t, Needle(key))
  {
    hide After, Quoted, Forms;
    SkipStringValue(v, gap + t, key);
    assert [QUOTE] + (gap + t) == [QUOTE] + gap + t;
    CrossGap(gap, t, key, 0);
  }

  /** The needle is first met at the key itself or at the end of a string value that forms it;
      nothing else in the file can match. */
  lemma {:induction false} NeedleTarget(ms: seq<Member>, key: string)
    requires PlainKey(key) && ValidMembers(ms)
    ensures After(Members(ms), Needle(key)) == Target(ms, key)
  {
    if ms != [] {
      var m := ms[0];
      if m.key == key {
        Hit(key, AfterKey(ms));
      } else {
        SkipSegment(m.key, AfterKey(ms), key);
        NeedleTarget(ms[1..], key);
        if m.value.Str? {
          NeedleOverGapToValue(ms, key);
          NeedleOverStr(ms, key);
        } else {
          NeedleOverBare(ms, key);
        }
      }
    }
  }

  // ---- reading the value --------------------------------------------------

  lemma {:induction false} ScanToken(a: string, t: string)
    requires forall i :: 0 <= i < |a| ==> !EndsBare(a[i])
    requires t != "" && EndsBare(t[0])
    ensures ScanBare(a + t) == a
  {
    if a == "" {
      assert a + t == t;
    } else {
      assert (a + t)[1..] == a[1..] + t;
      ScanToken(a[1..], t);
    }
  }

  lemma ReadThroughColon(gap: string, lead: string, at: string)
    requires Blanks(gap) && Blanks(lead) && at != "" && !IsBlank(at[0])
    ensures ReadValue(gap + ":" + lead + at) == Some(Token(at))
  {
    hide ReadValue, ScanString, ScanBare;
    ReadValueExact(gap, lead, at);
  }

  lemma ReadHere(ms: seq<Member>)
    requires ValidMembers(ms) && ms != []
    ensures ReadValue(AfterKey(ms)) == Some(ValueFound(ms[0].value))
  {
    ReadAtValue(ms);
    ReadThroughColon(ms[0].gap, ms[0].lead, AtValue(ms));
  }

  lemma TokenQuoted(s: string, rest: string)
    ensures Quoted(s, rest)[0] == QUOTE && Token(Quoted(s, rest)) == Found(s, true)
  {
    EscapeScanInverse(s, rest);
    assert Quoted(s, rest)[1..] == Escape(s) + [QUOTE] + rest;
  }

  lemma TokenBare(t: string, rest: string)
    requires IsToken(t) && rest != "" && EndsBare(rest[0])
    ensures (t + rest)[0] == t[0] && Token(t + rest) == Found(t, false)
  {
    ScanToken(t, rest);
  }

  lemma ReadAtValue(ms: seq<Member>)
    requires ValidMembers(ms) && ms != []
    ensures var at := AtValue(ms);
      at != "" && !IsBlank(at[0]) && Token(at) == ValueFound(ms[0].value)
  {
    match ms[0].value {
      case Str(s) => TokenQuoted(s, AfterValue(ms));
      case Bare(t) => TokenBare(t, AfterValue(ms));
    }
  }

  /** Behind a captured string value the next colon is that of the following member. */
  lemma ReadNext(ms: seq<Member>)
    requires ValidMembers(ms) && ms != []
    ensures ReadValue(AfterValue(ms)) == if |ms| == 1 then None else Some(ValueFound(ms[1].value))
  {
    DropOverNeutral(ms[0].sep, Members(ms[1..]));
    if |ms| > 1 {
      var m := ms[1];
      var a := [QUOTE] + m.key + [QUOTE];
      assert forall i :: 0 <= i < |m.key| ==> KeyChar(m.key[i]);
      DropOverNeutral(a, AfterKey(ms[1..]));
      ReadHere(ms[1..]);
    }
  }

  lemma {:induction false} ReadTarget(ms: seq<Member>, key: string)
    requires ValidMembers(ms)
    ensures (if Target(ms, key).Some? then ReadValue(Target(ms, key).value) else None) == Lookup(ms, key)
  {
    if ms != [] {
      ReadHere(ms);
      ReadNext(ms);
      ReadTarget(ms[1..], key);
    }
  }

  /** json_find_value on any flat object is `Lookup`: no side condition on the string values. */
  lemma FindValueIsLookup(open: string, ms: seq<Member>, key: string)
    requires QuoteFree(open) && ValidMembers(ms) && PlainKey(key)
    ensures FindValue(Render(open, ms), key) == Lookup(ms, key)
  {
    SkipPlain(open, Members(ms), key);
    NeedleTarget(ms, key);
    ReadTarget(ms, key);
  }

  // ---- when the lookup is the dictionary's ---------------------------------

  predicate HasKey(ms: seq<Member>, key: string) {
    exists i :: 0 <= i < |ms| && ms[i].key == key
  }

  /** The members as a dictionary; of two members with one key the first counts. */
  function Dictionary(ms: seq<Member>): map<string, Value> {
    if ms == [] then map[] else Dictionary(ms[1..])[ms[0].key := ms[0].value]
  }

  function Entry(dict: map<string, Value>, key: string): Option<Found> {
    if key in dict then Some(ValueFound(dict[key])) else None
  }

  /** A key is in the dictionary exactly if some member has it, with the value of the first one. */
  lemma {:induction false} DictionaryIsFirst(ms: seq<Member>, key: string)
    ensures key in Dictionary(ms) <==> HasKey(ms, key)
    ensures forall i :: 0 <= i < |ms| && ms[i].key == key && (forall j :: 0 <= j < i ==> ms[j].key != key)
              ==> Entry(Dictionary(ms), key) == Some(ValueFound(ms[i].value))
  {
    if ms != [] {
      var rest := ms[1..];
      DictionaryIsFirst(rest, key);
      assert forall i :: 1 <= i < |ms| ==> ms[i] == rest[i - 1];
      assert HasKey(ms, key) <==> ms[0].key == key || HasKey(rest, key) by {
        if HasKey(rest, key) {
          var i :| 0 <= i < |rest| && rest[i].key == key;
          assert ms[i + 1].key == key;
        }
      }
      forall i | 0 < i < |ms| && ms[i].key == key && (forall j :: 0 <= j < i ==> ms[j].key != key)
        ensures Entry(Dictionary(ms), key) == Some(ValueFound(ms[i].value))
      {
        assert rest[i - 1] == ms[i];
        assert forall j :: 0 <= j < i - 1 ==> rest[j] == ms[j + 1];
      }
    }
  }

  /** The j-th member is the first whose string value forms the key, and no member up to it has
      the key. */
  predicate FirstForm(ms: seq<Member>, key: string, j: nat) {
    && j < |ms| && FormsKey(ms[j], key)
    && (forall i :: 0 <= i < j ==> !FormsKey(ms[i], key))
    && (forall i :: 0 <= i <= j ==> ms[i].key != key)
  }

  /** The value of the member behind the j-th, if there is one. */
  function Behind(ms: seq<Member>, j: nat): Option<Found>
    requires j < |ms|
  {
    if j + 1 == |ms| then None else Some(ValueFound(ms[j + 1].value))
  }

  lemma FirstFormCons(ms: seq<Member>, key: string, j: nat)
    requires ms != [] && ms[0].key != key && !FormsKey(ms[0], key)
    ensures !FirstForm(ms, key, 0)
    ensures FirstForm(ms, key, j + 1) <==> FirstForm(ms[1..], key, j)
    ensures j < |ms| - 1 ==> Behind(ms, j + 1) == Behind(ms[1..], j)
  {
    var rest := ms[1..];
    assert forall i :: 0 <= i < |rest| ==> rest[i] == ms[i + 1];
    if FirstForm(rest, key, j) {
      assert forall i :: 1 <= i < |ms| ==> ms[i] == rest[i - 1];
    }
  }

  /** The lookup in one step: the value behind the first forming member, if the key does not stand
      at or before it, and the dictionary's entry otherwise. */
  lemma {:induction false} LookupByFirstForm(ms: seq<Member>, key: string)
    ensures forall j: nat :: FirstForm(ms, key, j) ==> Lookup(ms, key) == Behind(ms, j)
    ensures (forall j: nat :: !FirstForm(ms, key, j)) ==> Lookup(ms, key) == Entry(Dictionary(ms), key)
  {
    if ms != [] && ms[0].key != key {
      if FormsKey(ms[0], key) {
        assert FirstForm(ms, key, 0);
      } else {
        LookupByFirstForm(ms[1..], key);
        forall j: nat ensures FirstForm(ms, key, j + 1) <==> FirstForm(ms[1..], key, j) {
          FirstFormCons(ms, key, j);
        }
        forall j: nat | FirstForm(ms, key, j) ensures Lookup(ms, key) == Behind(ms, j) {
          FirstFormCons(ms, key, if j > 0 then j - 1 else 0);
        }
        if forall j: nat :: !FirstForm(ms, key, j) {
          forall j: nat ensures !FirstForm(ms[1..], key, j) { assert !FirstForm(ms, key, j + 1); }
        }
      }
    }
  }

  /** The lookup is the dictionary's for any order, blank space and subset of keys, exactly if a
      string value that forms the key before the key itself is absent or happens to be followed by
      what the dictionary says. */
  lemma LookupExact(ms: seq<Member>, key: string)
    ensures Lookup(ms, key) == Entry(Dictionary(ms), key)
       <==> forall j: nat :: FirstForm(ms, key, j) ==> Behind(ms, j) == Entry(Dictionary(ms), key)
  {
    LookupByFirstForm(ms, key);
  }

  // ---- where strstr() lands -----------------------------------------------

  /** Where the opening quote of the k-th key stands in the file. */
  function KeyOffset(open: string, ms: seq<Member>, k: nat): int
    requires k < |ms|
  {
    |Render(open, ms)| - |Members(ms[k..])|
  }

  predicate FormsBefore(ms: seq<Member>, k: nat, key: string)
    requires k <= |ms|
  {
    exists i :: 0 <= i < k && FormsKey(ms[i], key)
  }

  function ValueText(v: Value): string {
    match v
    case Str(s) => [QUOTE] + Escape(s) + [QUOTE]
    case Bare(t) => t
  }

  function MemberText(m: Member): string {
    [QUOTE] + m.key + [QUOTE] + (m.gap + ":" + m.lead + (ValueText(m.value) + m.sep))
  }

  lemma Assoc(a: string, b: string, c: string)
    ensures a + (b + c) == (a + b) + c
  {
  }

  lemma MembersCons(ms: seq<Member>)
    requires ms != []
    ensures Members(ms) == MemberText(ms[0]) + Members(ms[1..])
  {
    var m := ms[0];
    var rest := Members(ms[1..]);
    var head, value := m.gap + ":" + m.lead, ValueText(m.value);
    Assoc(value, m.sep, rest);
    Assoc(head, value + m.sep, rest);
    Assoc([QUOTE] + m.key + [QUOTE], head + (value + m.sep), rest);
    assert AtValue(ms) == value + (m.sep + rest);
  }

  /** An upper bound of the printed length of a member. */
  function MemberSize(m: Member): nat {
    |m.key| + |m.gap| + |m.lead| + |m.sep| + 5 + (match m.value case Str(s) => 2 * |s| case Bare(t) => |t|)
  }

  lemma MemberTextLength(m: Member)
    ensures |MemberText(m)| <= MemberSize(m)
  {
  }

  function MembersSize(ms: seq<Member>): nat {
    if ms == [] then 0 else MemberSize(ms[0]) + MembersSize(ms[1..])
  }

  lemma {:induction false} MembersLengthBound(ms: seq<Member>)
    ensures |Members(ms)| <= MembersSize(ms)
  {
    if ms != [] {
      MembersCons(ms);
      MemberTextLength(ms[0]);
      MembersLengthBound(ms[1..]);
    }
  }

  lemma {:induction false} KeyOffsetIsTheKey(open: string, ms: seq<Member>, k: nat)
    requires k < |ms|
    ensures |open| <= KeyOffset(open, ms, k)
    ensures Render(open, ms)[KeyOffset(open, ms, k)..] == Members(ms[k..])
    decreases k
  {
    if k == 0 {
      assert ms[0..] == ms;
    } else {
      MembersCons(ms);
      var open' := open + MemberText(ms[0]);
      assert Render(open, ms) == Render(open', ms[1..]);
      assert ms[1..][k - 1..] == ms[k..];
      KeyOffsetIsTheKey(open', ms[1..], k - 1);
    }
  }

  lemma {:induction false} TargetLength(ms: seq<Member>, k: nat)
    requires ValidMembers(ms) && k < |ms|
    requires forall i :: 0 <= i < k ==> ms[i].key != ms[k].key
    ensures |Members(ms)| >= |Members(ms[k..])|
    ensures var key := ms[k].key;
      && Target(ms, key).Some?
      && (FormsBefore(ms, k, key) ==> |Target(ms, key).value| > |Members(ms[k..])|)
      && (!FormsBefore(ms, k, key) ==> Target(ms, key).value == AfterKey(ms[k..]))
    decreases k
  {
    var key := ms[k].key;
    if k == 0 {
      assert ms[0..] == ms;
    } else {
      assert ms[1..][k - 1..] == ms[k..];
      MembersCons(ms);
      TargetLength(ms[1..], k - 1);
      FormsBeforeCons(ms, k, key);
      TargetCons(ms, key);
    }
  }

  /** The search in one step, for a first member that does not have the key. */
  lemma TargetCons(ms: seq<Member>, key: string)
    requires ms != [] && ValidMembers(ms) && ms[0].key != key
    ensures FormsKey(ms[0], key) ==> Target(ms, key) == Some(AfterValue(ms)) && |AfterValue(ms)| > |Members(ms[1..])|
    ensures !FormsKey(ms[0], key) ==> Target(ms, key) == Target(ms[1..], key)
  {
  }

  lemma FormsBeforeCons(ms: seq<Member>, k: nat, key: string)
    requires 0 < k < |ms|
    ensures FormsBefore(ms, k, key) <==>
      FormsKey(ms[0], key) || FormsBefore(ms[1..], k - 1, key)
  {
    if FormsBefore(ms, k, key) {
      var i :| 0 <= i < k && FormsKey(ms[i], key);
      assert i > 0 ==> ms[1..][i - 1] == ms[i];
    }
    if FormsBefore(ms[1..], k - 1, key) {
      var i :| 0 <= i < k - 1 && FormsKey(ms[1..][i], key);
      assert ms[i + 1] == ms[1..][i];
    }
  }

  /** strstr() finds the genuine key exactly when no string value before it forms the needle. */
  lemma FirstOccurrenceExact(open: string, ms: seq<Member>, k: nat)
    requires QuoteFree(open) && ValidMembers(ms) && k < |ms|
    requires forall i :: 0 <= i < k ==> ms[i].key != ms[k].key
    ensures StrStr(Render(open, ms), Needle(ms[k].key)) == Some(KeyOffset(open, ms, k))
       <==> !FormsBefore(ms, k, ms[k].key)
  {
    var key := ms[k].key;
    SkipPlain(open, Members(ms), key);
    NeedleTarget(ms, key);
    TargetLength(ms, k);
    StrStrByLength(Render(open, ms), Needle(key), KeyOffset(open, ms, k));
    KeyOffsetIsTheKey(open, ms, k);
    MembersLength(ms[k..]);
  }

  lemma MembersLength(ms: seq<Member>)
    requires ms != []
    ensures |Members(ms)| == |Needle(ms[0].key)| + |AfterKey(ms)|
  {
  }
}
