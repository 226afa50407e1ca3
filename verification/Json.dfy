/** The hand-written JSON string printer and value finder of config.c. */
module Json {
  import opened CStrings

  const QUOTE: char := '"'
  const BACKSLASH: char := '\\'

  predicate IsBlank(c: char) {
    c == ' ' || c == '\t' || c == '\n' || c == '\r'
  }

  predicate EndsBare(c: char) {
    c == ',' || c == '}' || IsBlank(c)
  }

  // ---- escaping -----------------------------------------------------------

  function EscapeChar(c: char): (e: string)
    ensures 1 <= |e| <= 2
  {
    if c == QUOTE || c == BACKSLASH then [BACKSLASH, c] else [c]
  }

  /** `s` with every quote and every backslash preceded by a backslash. */
  function Escape(s: string): (e: string)
    ensures |s| <= |e| <= 2 * |s|
    ensures NulFree(s) ==> NulFree(e)
  {
    if s == "" then "" else EscapeChar(s[0]) + Escape(s[1..])
  }

  lemma {:induction false} EscapeAppend(a: string, b: string)
    ensures Escape(a + b) == Escape(a) + Escape(b)
  {
    if a == "" {
      assert a + b == b;
    } else {
      assert (a + b)[1..] == a[1..] + b;
      EscapeAppend(a[1..], b);
    }
  }

  lemma EscapeStep(s: string, p: nat)
    requires p < |s|
    ensures Escape(s[..p + 1]) == Escape(s[..p]) + EscapeChar(s[p])
  {
    assert s[..p + 1] == s[..p] + [s[p]] && [s[p]][1..] == "";
    EscapeAppend(s[..p], [s[p]]);
  }

  /** The escape of a quote and of a backslash, literally. */
  lemma EscapeLiterally(s: string)
    requires s == "a\"b\\"
    ensures Escape(s) == "a\\\"b\\\\"
  {
    assert s[1..] == "\"b\\" && s[1..][1..] == "b\\" && s[1..][1..][1..] == "\\" && s[1..][1..][1..][1..] == "";
    assert Escape("\\") == "\\\\";
    assert Escape("b\\") == "b\\\\";
    assert Escape("\"b\\") == "\\\"b\\\\";
  }

  /** How many characters of `s`, counted from `k`, json_escape copies into `size` bytes. */
  function Fitting(s: string, size: nat, k: nat): (n: nat)
    requires k <= |s|
    ensures k <= n <= |s|
    ensures n == |s| || |Escape(s[..n])| + 2 >= size
    ensures forall j :: k <= j < n ==> |Escape(s[..j])| + 2 < size
    decreases |s| - k
  {
    if k == |s| || |Escape(s[..k])| + 2 >= size then k else Fitting(s, size, k + 1)
  }

  /** json_escape: whole escape pairs only, always terminated inside `out`. */
  method JsonEscape(s: string, out: array<char>)
    requires NulFree(s) && out.Length > 0
    modifies out
    ensures Terminated(out[..])
    ensures CStr(out[..]) == Escape(s[..Fitting(s, out.Length, 0)])
  {
    var o, p := 0, 0;
    assert s[..0] == "";
    while p < |s| && o + 2 < out.Length
      invariant p <= |s| && o < out.Length
      invariant out[..o] == Escape(s[..p])
      invariant Fitting(s, out.Length, 0) == Fitting(s, out.Length, p)
    {
      EscapeStep(s, p);
      o := PutEscaped(out, o, s[p]);
      p := p + 1;
    }
    EscapeNulFree(s, p);
    EndEscape(out, o, Escape(s[..p]));
  }

  lemma EscapeNulFree(s: string, p: nat)
    requires NulFree(s) && p <= |s|
    ensures NulFree(Escape(s[..p]))
  {
  }

  /** The NUL behind the escaped text. */
  method EndEscape(out: array<char>, o: nat, ghost e: string)
    requires o < out.Length && out[..o] == e && NulFree(e)
    modifies out
    ensures Terminated(out[..]) && CStr(out[..]) == e
  {
    out[o] := NUL;
    CStrUnique(out[..], e);
  }

  /** One round of json_escape's loop: a character and, if it needs one, its backslash. */
  method PutEscaped(out: array<char>, o: nat, c: char) returns (o': nat)
    requires o + 2 < out.Length
    modifies out
    ensures o <= o' < out.Length && out[..o'] == old(out[..o]) + EscapeChar(c)
  {
    o' := o;
    if c == QUOTE || c == BACKSLASH {
      out[o'] := BACKSLASH;
      o' := o' + 1;
    }
    out[o'] := c;
    o' := o' + 1;
  }

  /** Nothing is lost whenever the buffer has more than twice the length of the string. */
  lemma EscapeNeverTruncates(s: string, size: nat)
    requires 2 * |s| < size
    ensures Escape(s[..Fitting(s, size, 0)]) == Escape(s)
  {
    var n := Fitting(s, size, 0);
    assert |Escape(s[..n])| <= 2 * n;
    assert s[..|s|] == s;
  }

  // ---- reading a value ----------------------------------------------------

  /** The text of a value and whether it was quoted. */
  datatype Found = Found(text: string, quoted: bool)

  /** The unescaped contents of the string body `t`, up to its closing quote or the end of `t`. */
  function ScanString(t: string): (v: string)
    ensures |v| <= |t|
    ensures NulFree(t) ==> NulFree(v)
    decreases |t|
  {
    if t == "" || t[0] == QUOTE then ""
    else if t[0] == BACKSLASH && |t| > 1 then [t[1]] + ScanString(t[2..])
    else [t[0]] + ScanString(t[1..])
  }

  /** What is left of `t` from the closing quote on. */
  function ScanStop(t: string): (rest: string)
    decreases |t|
  {
    if t == "" || t[0] == QUOTE then t
    else if t[0] == BACKSLASH && |t| > 1 then ScanStop(t[2..])
    else ScanStop(t[1..])
  }

  function ScanBare(t: string): (v: string)
    ensures |v| <= |t|
    ensures NulFree(t) ==> NulFree(v)
  {
    if t == "" || EndsBare(t[0]) then "" else [t[0]] + ScanBare(t[1..])
  }

  function DropToColon(t: string): (rest: string)
    ensures |rest| <= |t|
    ensures NulFree(t) ==> NulFree(rest)
    ensures rest == "" || rest[0] == ':'
  {
    if t == "" || t[0] == ':' then t else DropToColon(t[1..])
  }

  function SkipBlanks(t: string): (rest: string)
    ensures |rest| <= |t|
    ensures NulFree(t) ==> NulFree(rest)
    ensures rest == "" || !IsBlank(rest[0])
  {
    if t != "" && IsBlank(t[0]) then SkipBlanks(t[1..]) else t
  }

  /** The value behind the next colon of `rest`. */
  function ReadValue(rest: string): (r: Option<Found>)
    ensures r.Some? && NulFree(rest) ==> NulFree(r.value.text)
  {
    var c := DropToColon(rest);
    if c == "" then None
    else
      var v := SkipBlanks(c[1..]);
      if v != "" && v[0] == QUOTE then Some(Found(ScanString(v[1..]), true))
      else Some(Found(ScanBare(v), false))
  }

  function Needle(key: string): string {
    [QUOTE] + key + [QUOTE]
  }

  const NEEDLE_SIZE: nat := 280

  /** The value json_find_value reports for `key`, before it is cut to the size of `out`. */
  function FindValue(text: string, key: string): (r: Option<Found>)
    ensures r.Some? && NulFree(text) ==> NulFree(r.value.text)
  {
    var rest := After(text, Truncate(Needle(key), NEEDLE_SIZE));
    if rest.None? then None else ReadValue(rest.value)
  }

  // ---- the pointer loops --------------------------------------------------

  /** `buf` stores the C string `text`. */
  ghost predicate Stores(buf: array<char>, text: string)
    reads buf
  {
    && NulFree(text) && |text| < buf.Length && buf[|text|] == NUL
    && forall i :: 0 <= i < |text| ==> buf[i] == text[i]
  }

  /** json_find_value: the buffer is never read past its NUL and `out` is always terminated. */
  method JsonFindValue(buf: array<char>, key: string, out: array<char>)
    returns (found: bool, isString: bool)
    requires Terminated(buf[..]) && out.Length > 0 && buf != out
    modifies out
    ensures Reports(FindValue(CStr(old(buf[..])), key), found, isString, out)
    ensures !found ==> out[..] == old(out[..])
  {
    found, isString := false, false;
    var text := CStr(buf[..]);
    var p := BehindNeedle(text, Truncate(Needle(key), NEEDLE_SIZE));
    if p.Some? {
      found, isString := ReadValueAt(buf, p.value, out, text);
    }
  }

  /** strstr() and `p += strlen(needle)`. */
  method BehindNeedle(text: string, needle: string) returns (p: Option<nat>)
    ensures p.Some? ==> p.value <= |text| && After(text, needle) == Some(text[p.value..])
    ensures p.None? ==> After(text, needle) == None
  {
    AfterIsPastStrStr(text, needle);
    var hit := StrStr(text, needle);
    p := if hit == None then None else Some(hit.value + |needle|);
  }

  /** The part of json_find_value behind the needle. */
  method ReadValueAt(buf: array<char>, start: nat, out: array<char>, ghost text: string)
    returns (found: bool, isString: bool)
    requires Stores(buf, text) && start <= |text| && out.Length > 0 && buf != out
    modifies out
    ensures Reports(ReadValue(text[start..]), found, isString, out)
    ensures !found ==> out[..] == old(out[..])
  {
    found, isString := false, false;
    var p := AfterColon(buf, start, text);
    if p == 0 { return; }
    p := PastBlanks(buf, p, text);
    found := true;
    if buf[p] == QUOTE {
      isString := true;
      assert text[p..][1..] == text[p + 1..];
      CopyString(buf, p + 1, out, text);
    } else {
      CopyBare(buf, p, out, text);
    }
  }

  /** The return value, the string flag and the terminated output buffer agree with `r`. */
  ghost predicate Reports(r: Option<Found>, found: bool, isString: bool, out: array<char>)
    requires out.Length > 0
    reads out
  {
    && found == r.Some?
    && (found ==> isString == r.value.quoted)
    && (found ==> Terminated(out[..]) && CStr(out[..]) == Truncate(r.value.text, out.Length))
  }

  /** Advance behind the next ':'; 0 when the text ends first. */
  method AfterColon(buf: array<char>, start: nat, ghost text: string) returns (p: nat)
    requires Stores(buf, text) && start <= |text|
    ensures p == 0 <==> DropToColon(text[start..]) == ""
    ensures p != 0 ==> p <= |text| && DropToColon(text[start..])[1..] == text[p..]
  {
    p := start;
    while buf[p] != NUL && buf[p] != ':'
      invariant start <= p <= |text|
      invariant DropToColon(text[p..]) == DropToColon(text[start..])
      decreases |text| - p
    {
      assert text[p..][1..] == text[p + 1..];
      p := p + 1;
    }
    ghost var t := text[p..];
    if buf[p] != ':' { return 0; }
    p := p + 1;
    assert t[1..] == text[p..];
  }

  method PastBlanks(buf: array<char>, start: nat, ghost text: string) returns (p: nat)
    requires Stores(buf, text) && start <= |text|
    ensures p <= |text| && text[p..] == SkipBlanks(text[start..])
  {
    p := start;
    while buf[p] == ' ' || buf[p] == '\t' || buf[p] == '\n' || buf[p] == '\r'
      invariant start <= p <= |text|
      invariant SkipBlanks(text[p..]) == SkipBlanks(text[start..])
      decreases |text| - p
    {
      assert text[p..][1..] == text[p + 1..];
      p := p + 1;
    }
  }

  /** `out[..o]` is what was kept of the value copied so far. */
  ghost predicate Kept(out: array<char>, o: nat, acc: string)
    reads out
  {
    && out.Length > 0 && NulFree(acc)
    && o == |Truncate(acc, out.Length)| && out[..o] == Truncate(acc, out.Length)
  }

  /** Append one character to the output unless only the place of the NUL is left. */
  method Push(out: array<char>, o: nat, c: char, ghost acc: string) returns (o': nat)
    requires Kept(out, o, acc) && c != NUL
    modifies out
    ensures Kept(out, o', acc + [c])
  {
    o' := o;
    if o + 1 < out.Length {
      out[o] := c;
      o' := o + 1;
    }
  }

  /** Put the NUL behind what was kept; there is always room for it. */
  method Terminate(out: array<char>, o: nat, ghost acc: string)
    requires Kept(out, o, acc)
    modifies out
    ensures Terminated(out[..]) && CStr(out[..]) == Truncate(acc, out.Length)
  {
    out[o] := NUL;
    CStrUnique(out[..], Truncate(acc, out.Length));
  }

  /** `acc` has been copied by the quoted branch, which is at `p`. */
  ghost predicate StringSoFar(text: string, start: nat, p: nat, acc: string)
    requires start <= p <= |text|
  {
    acc + ScanString(text[p..]) == ScanString(text[start..])
  }

  /** One round of the quoted branch: a backslash that is not the last character is dropped. */
  lemma StringStep(text: string, start: nat, p: nat, q: nat, acc: string)
    requires start <= p < |text| && text[p] != QUOTE && StringSoFar(text, start, p, acc)
    requires q == if text[p] == BACKSLASH && p + 1 < |text| then p + 1 else p
    ensures StringSoFar(text, start, q + 1, acc + [text[q]])
  {
    var t := text[p..];
    assert t[1..] == text[p + 1..];
    if |t| > 1 { assert t[2..] == text[p + 2..]; }
    assert ScanString(t) == [text[q]] + ScanString(text[q + 1..]);
  }

  /** The state of the quoted branch: at `p`, with `acc` copied and as much of it kept as fits. */
  ghost predicate Copying(buf: array<char>, out: array<char>, text: string, start: nat, p: nat, o: nat, acc: string)
    reads buf, out
  {
    Stores(buf, text) && start <= p <= |text| && StringSoFar(text, start, p, acc) && Kept(out, o, acc)
  }

  /** One round of the quoted branch. */
  method CopyStringRound(buf: array<char>, start: nat, p: nat, out: array<char>, o: nat, ghost text: string, ghost acc: string)
    returns (p': nat, o': nat, ghost acc': string)
    requires buf != out && Copying(buf, out, text, start, p, o, acc)
    requires buf[p] != NUL && buf[p] != QUOTE
    modifies out
    ensures Copying(buf, out, text, start, p', o', acc') && p < p'
  {
    p' := p;
    if buf[p'] == BACKSLASH && buf[p' + 1] != NUL {
      p' := p' + 1;
    }
    StringStep(text, start, p, p', acc);
    acc' := acc + [text[p']];
    o' := Push(out, o, buf[p'], acc);
    p' := p' + 1;
  }

  /** The quoted branch: copy until the closing quote, honouring backslashes. */
  method CopyString(buf: array<char>, start: nat, out: array<char>, ghost text: string)
    requires Stores(buf, text) && start <= |text| && out.Length > 0 && buf != out
    modifies out
    ensures Terminated(out[..]) && CStr(out[..]) == Truncate(ScanString(text[start..]), out.Length)
  {
    ghost var acc := "";
    var p, o := start, 0;
    while buf[p] != NUL && buf[p] != QUOTE
      invariant Copying(buf, out, text, start, p, o, acc)
      decreases |text| - p
    {
      p, o, acc := CopyStringRound(buf, start, p, out, o, text, acc);
    }
    StringEnd(text, start, p, acc);
    Terminate(out, o, acc);
  }

  lemma StringEnd(text: string, start: nat, p: nat, acc: string)
    requires start <= p <= |text| && StringSoFar(text, start, p, acc) && (p < |text| ==> text[p] == QUOTE)
    ensures acc == ScanString(text[start..])
  {
    assert ScanString(text[p..]) == "";
  }

  ghost predicate BareSoFar(text: string, start: nat, p: nat, acc: string)
    requires start <= p <= |text|
  {
    acc + ScanBare(text[p..]) == ScanBare(text[start..])
  }

  lemma BareStep(text: string, start: nat, p: nat, acc: string)
    requires start <= p < |text| && !EndsBare(text[p]) && BareSoFar(text, start, p, acc)
    ensures BareSoFar(text, start, p + 1, acc + [text[p]])
  {
    assert text[p..][1..] == text[p + 1..];
    assert ScanBare(text[p..]) == [text[p]] + ScanBare(text[p + 1..]);
  }

  /** The bare branch: copy until a comma, a closing brace, blank space or the end. */
  method CopyBare(buf: array<char>, start: nat, out: array<char>, ghost text: string)
    requires Stores(buf, text) && start <= |text| && out.Length > 0 && buf != out
    modifies out
    ensures Terminated(out[..]) && CStr(out[..]) == Truncate(ScanBare(text[start..]), out.Length)
  {
    ghost var acc := "";
    var p, o := start, 0;
    while buf[p] != NUL && buf[p] != ',' && buf[p] != '}' && buf[p] != '\n' && buf[p] != '\r'
          && buf[p] != ' ' && buf[p] != '\t'
      invariant Stores(buf, text) && start <= p <= |text|
      invariant BareSoFar(text, start, p, acc)
      invariant Kept(out, o, acc)
      decreases |text| - p
    {
      BareStep(text, start, p, acc);
      o := Push(out, o, buf[p], acc);
      acc := acc + [text[p]];
      p := p + 1;
    }
    assert acc == ScanBare(text[start..]);
    Terminate(out, o, acc);
  }

  // ---- escape and scan are inverse ----------------------------------------

  lemma ScanEscapedChar(c: char, u: string)
    ensures ScanString(EscapeChar(c) + u) == [c] + ScanString(u)
    ensures ScanStop(EscapeChar(c) + u) == ScanStop(u)
  {
    var t := EscapeChar(c) + u;
    if c == QUOTE || c == BACKSLASH {
      assert t[2..] == u;
    } else {
      assert t[1..] == u;
    }
  }

  /** Scanning an escaped string and its closing quote yields the string and stops at that quote,
      whatever text follows. */
  lemma {:induction false} EscapeScanInverse(s: string, rest: string)
    ensures ScanString(Escape(s) + [QUOTE] + rest) == s
    ensures ScanStop(Escape(s) + [QUOTE] + rest) == [QUOTE] + rest
  {
    if s == "" {
      assert "" + [QUOTE] + rest == [QUOTE] + rest;
    } else {
      EscapeScanInverse(s[1..], rest);
      ScanEscapedChar(s[0], Escape(s[1..]) + [QUOTE] + rest);
      Regroup3(EscapeChar(s[0]), Escape(s[1..]), [QUOTE], rest);
    }
  }

  lemma Regroup3(a: string, b: string, c: string, d: string)
    ensures a + b + c + d == a + (b + c + d)
  {
  }

  // ---- any string body ----------------------------------------------------

  /** A piece of a string body: a character that stands for itself, or a backslash and the character
      it stands for. */
  datatype Piece = Plain(c: char) | Pair(c: char)

  predicate ValidPieces(ps: seq<Piece>) {
    forall i :: 0 <= i < |ps| && ps[i].Plain? ==> ps[i].c != '"' && ps[i].c != '\\'
  }

  function PieceText(p: Piece): string {
    if p.Plain? then [p.c] else ['\\', p.c]
  }

  function PiecesText(ps: seq<Piece>): string {
    if ps == [] then "" else PieceText(ps[0]) + PiecesText(ps[1..])
  }

  function PiecesValue(ps: seq<Piece>): string {
    if ps == [] then "" else [ps[0].c] + PiecesValue(ps[1..])
  }

  lemma ScanPiece(p: Piece, u: string)
    requires p.Plain? ==> p.c != '"' && p.c != '\\'
    ensures ScanString(PieceText(p) + u) == [p.c] + ScanString(u)
  {
    var t := PieceText(p) + u;
    if p.Plain? { assert t[1..] == u; } else { assert t[2..] == u; }
  }

  lemma ScanEnd(rest: string)
    requires rest == "" || rest[0] == '"' || rest == "\\"
    ensures ScanString(rest) == if rest == "\\" then "\\" else ""
  {
    if rest == "\\" { assert rest[1..] == ""; }
  }

  /** Any string body, hand-written escapes included: every pair stands for its second character. The
      body ends at a quote or with the text; a backslash that is the last character of the text
      stands for itself. */
  lemma {:induction false} ScanPieces(ps: seq<Piece>, rest: string)
    requires ValidPieces(ps) && (rest == "" || rest[0] == '"' || rest == "\\")
    ensures ScanString(PiecesText(ps) + rest) == PiecesValue(ps) + if rest == "\\" then "\\" else ""
  {
    hide ScanString;
    if ps == [] {
      ScanEnd(rest);
      assert PiecesText(ps) + rest == rest;
    } else {
      ScanPieces(ps[1..], rest);
      ScanPiece(ps[0], PiecesText(ps[1..]) + rest);
      assert PiecesText(ps) + rest == PieceText(ps[0]) + (PiecesText(ps[1..]) + rest);
    }
  }

  /** A bare value is what stands before the first comma, closing brace or blank. */
  lemma {:induction false} ScanBareExact(t: string)
    ensures var v := ScanBare(t);
      && v <= t && (forall i :: 0 <= i < |v| ==> v[i] !in ",}\n\r \t")
      && (|v| < |t| ==> t[|v|] in ",}\n\r \t")
  {
    if t != "" && !EndsBare(t[0]) {
      ScanBareExact(t[1..]);
    }
  }

  lemma {:induction false} DropOverNeutral(a: string, t: string)
    requires forall i :: 0 <= i < |a| ==> a[i] != ':'
    ensures DropToColon(a + t) == DropToColon(t)
  {
    if a == "" {
      assert a + t == t;
    } else {
      assert (a + t)[1..] == a[1..] + t;
      DropOverNeutral(a[1..], t);
    }
  }

  lemma {:induction false} SkipOverBlanks(a: string, t: string)
    requires (forall i :: 0 <= i < |a| ==> IsBlank(a[i])) && (t == "" || !IsBlank(t[0]))
    ensures SkipBlanks(a + t) == t
  {
    if a == "" {
      assert a + t == t;
    } else {
      assert (a + t)[1..] == a[1..] + t;
      SkipOverBlanks(a[1..], t);
    }
  }

  /** The value at `at`: a string body behind a quote, a bare value otherwise. */
  function Token(at: string): Found {
    if at != "" && at[0] == '"' then Found(ScanString(at[1..]), true) else Found(ScanBare(at), false)
  }

  lemma ColonFound(before: string, tail: string)
    requires ':' !in before
    ensures DropToColon(before + (":" + tail)) == ":" + tail
  {
    DropOverNeutral(before, ":" + tail);
  }

  lemma ReadTail(rest: string, tail: string)
    requires DropToColon(rest) == ":" + tail
    ensures ReadValue(rest) == Some(Token(SkipBlanks(tail)))
  {
    hide ScanString, ScanBare, DropToColon, SkipBlanks;
    assert (":" + tail)[1..] == tail;
  }

  lemma Regroup4(a: string, b: string, c: string, d: string)
    ensures a + b + c + d == a + (b + (c + d))
  {
  }

  /** What the finder reads in any text behind the key: behind the first colon and the blank space that
      follows, a string body if a quote stands there and a bare value if not ... */
  lemma ReadValueExact(before: string, blanks: string, body: string)
    requires ':' !in before && (forall i :: 0 <= i < |blanks| ==> blanks[i] in " \t\n\r")
    requires body == "" || body[0] !in " \t\n\r"
    ensures ReadValue(before + ":" + blanks + body)
         == Some(if body != "" && body[0] == '"' then Found(ScanString(body[1..]), true) else Found(ScanBare(body), false))
  {
    hide ReadValue, DropToColon, ScanString, ScanBare, SkipBlanks;
    Regroup4(before, ":", blanks, body);
    ColonFound(before, blanks + body);
    SkipOverBlanks(blanks, body);
    ReadTail(before + ":" + blanks + body, blanks + body);
  }

  /** ... and nothing without a colon. */
  lemma ReadValueWithoutColon(text: string)
    requires ':' !in text
    ensures ReadValue(text) == None
  {
    assert text + "" == text;
    DropOverNeutral(text, "");
  }

  /** The finder searches the quoted key, of which the needle buffer holds the first 279 characters. */
  lemma FindValueSearches(text: string, key: string)
    ensures var needle := if |key| <= 277 then "\"" + key + "\"" else "\"" + key[..278];
      FindValue(text, key) == var rest := After(text, needle); if rest.None? then None else ReadValue(rest.value)
  {
    var n := Needle(key);
    assert Truncate(n, 280) == if |key| <= 277 then "\"" + key + "\"" else "\"" + key[..278];
  }

  // ---- where a needle can occur -------------------------------------------

  predicate QuoteFree(s: string) {
    forall i :: 0 <= i < |s| ==> s[i] != QUOTE
  }

  /** A character of the keys the tool looks up. */
  predicate KeyChar(c: char) {
    c != QUOTE && c != BACKSLASH && c != ':' && c != NUL && !EndsBare(c)
  }

  /** A key that fits the needle buffer. */
  predicate PlainKey(key: string) {
    && 0 < |key| && |key| + 2 < NEEDLE_SIZE
    && forall i :: 0 <= i < |key| ==> KeyChar(key[i])
  }

  /** Text that ends in `"key`, once the value's own opening quote is put in front: the string
      whose printed form contains the needle. */
  predicate Forms(v: string, key: string) {
    var w := [QUOTE] + v;
    |w| >= |key| + 1 && w[|w| - |key| - 1..] == [QUOTE] + key
  }

  lemma {:induction false} SkipPlain(a: string, t: string, key: string)
    requires QuoteFree(a) && (t == "" || t[0] == QUOTE)
    ensures After(a + t, Needle(key)) == After(t, Needle(key))
  {
    if a == "" {
      assert a + t == t;
    } else {
      assert (a + t)[0] != Needle(key)[0];
      assert (a + t)[1..] == a[1..] + t;
      SkipPlain(a[1..], t, key);
    }
  }

  lemma Hit(key: string, rest: string)
    ensures After([QUOTE] + key + [QUOTE] + rest, Needle(key)) == Some(rest)
  {
    assert ([QUOTE] + key + [QUOTE] + rest)[|Needle(key)|..] == rest;
  }

  /** A quoted segment other than the key is stepped over as far as its closing quote. */
  lemma SkipSegment(s: string, rest: string, key: string)
    requires QuoteFree(s) && PlainKey(key) && s != key
    ensures After([QUOTE] + s + [QUOTE] + rest, Needle(key)) == After([QUOTE] + rest, Needle(key))
  {
    var t := [QUOTE] + s + [QUOTE] + rest;
    var n := Needle(key);
    if |s| < |key| {
      assert n[1 + |s|] == key[|s|] && t[1 + |s|] == QUOTE;
    } else if |key| < |s| {
      assert n[1 + |key|] == QUOTE && t[1 + |key|] == s[|key|];
    } else {
      var i :| 0 <= i < |s| && s[i] != key[i];
      assert n[1 + i] == key[i] && t[1 + i] == s[i];
    }
    assert t[1..] == s + ([QUOTE] + rest);
    SkipPlain(s, [QUOTE] + rest, key);
  }

  /** `s` as a printed string value with `rest` behind its closing quote. */
  function Quoted(s: string, rest: string): string {
    [QUOTE] + Escape(s) + [QUOTE] + rest
  }

  /** The printed string `a`+`v`, of which `a` lies behind the last quote passed so far: its
      closing quote completes the needle, or no quote of it takes part in one. */
  lemma {:induction false} SkipEscapedFrom(a: string, v: string, rest: string, key: string)
    requires PlainKey(key) && QuoteFree(a)
    ensures After(Quoted(a + v, rest), Needle(key))
         == if Forms(a + v, key) then Some(rest) else After([QUOTE] + rest, Needle(key))
    decreases |v|
  {
    if v == "" {
      assert a + v == a;
      SkipLastSegment(a, rest, key);
    } else if v[0] == QUOTE {
      assert a + v == a + [QUOTE] + v[1..];
      SkipInnerSegment(a, v[1..], rest, key);
      FormsBehindQuote(a, v[1..], key);
      assert "" + v[1..] == v[1..];
      SkipEscapedFrom("", v[1..], rest, key);
    } else {
      assert a + v == a + [v[0]] + v[1..];
      SkipEscapedFrom(a + [v[0]], v[1..], rest, key);
    }
  }

  lemma SkipLastSegment(a: string, rest: string, key: string)
    requires PlainKey(key) && QuoteFree(a)
    ensures After(Quoted(a, rest), Needle(key))
         == if Forms(a, key) then Some(rest) else After([QUOTE] + rest, Needle(key))
  {
    EscapedSegment(a, key);
    if Escape(a) == key { Hit(key, rest); } else { SkipSegment(Escape(a), rest, key); }
  }

  /** The text between two quotes inside a printed string ends in a backslash: never the key. */
  lemma SkipInnerSegment(a: string, v: string, rest: string, key: string)
    requires PlainKey(key) && QuoteFree(a)
    ensures After(Quoted(a + [QUOTE] + v, rest), Needle(key)) == After(Quoted(v, rest), Needle(key))
  {
    var s := Escape(a) + [BACKSLASH];
    var rest' := Escape(v) + [QUOTE] + rest;
    QuotedAcrossQuote(a, v, rest);
    assert QuoteFree(s) && s != key by {
      EscapedSegment(a, key);
      assert s[|s| - 1] == BACKSLASH;
    }
    SkipSegment(s, rest', key);
  }

  lemma QuotedAcrossQuote(a: string, v: string, rest: string)
    ensures var rest' := Escape(v) + [QUOTE] + rest;
      && Quoted(a + [QUOTE] + v, rest) == [QUOTE] + (Escape(a) + [BACKSLASH]) + [QUOTE] + rest'
      && Quoted(v, rest) == [QUOTE] + rest'
  {
    EscapeAcrossQuote(a, v);
    Regroup(Escape(a), Escape(v), rest);
  }

  lemma Regroup(x: string, e: string, rest: string)
    ensures [QUOTE] + (x + [BACKSLASH] + [QUOTE] + e) + [QUOTE] + rest
         == [QUOTE] + (x + [BACKSLASH]) + [QUOTE] + (e + [QUOTE] + rest)
    ensures [QUOTE] + e + [QUOTE] + rest == [QUOTE] + (e + [QUOTE] + rest)
  {
  }

  lemma EscapeAcrossQuote(a: string, v: string)
    ensures Escape(a + [QUOTE] + v) == Escape(a) + [BACKSLASH] + [QUOTE] + Escape(v)
  {
    EscapeAppend(a + [QUOTE], v);
    EscapeAppend(a, [QUOTE]);
    EscapeOfQuote();
    SplitPair(Escape(a));
  }

  lemma EscapeOfQuote()
    ensures Escape([QUOTE]) == [BACKSLASH, QUOTE]
  {
    assert [QUOTE][1..] == "";
  }

  lemma SplitPair(x: string)
    ensures x + [BACKSLASH, QUOTE] == x + [BACKSLASH] + [QUOTE]
  {
  }

  /** A quote-free string prints as the key only if it is the key. */
  lemma {:induction false} EscapedSegment(a: string, key: string)
    requires PlainKey(key) && QuoteFree(a)
    ensures QuoteFree(Escape(a))
    ensures Escape(a) == key <==> Forms(a, key)
  {
    QuoteFreeEscape(a);
    if Forms(a, key) {
      FormsOfSegment(a, key);
      PlainEscape(a);
    }
    if Escape(a) == key {
      NoBackslashEscape(a);
      FormsItself(key);
    }
  }

  lemma FormsOfSegment(a: string, key: string)
    requires QuoteFree(a) && Forms(a, key)
    ensures a == key
  {
    var w := [QUOTE] + a;
    assert w[|w| - |key| - 1] == ([QUOTE] + key)[0] == QUOTE;
    assert |a| == |key|;
    assert a == w[1..] == ([QUOTE] + key)[1..] == key;
  }

  lemma FormsItself(key: string)
    ensures Forms(key, key)
  {
    assert ([QUOTE] + key)[0..] == [QUOTE] + key;
  }

  lemma {:induction false} QuoteFreeEscape(a: string)
    requires QuoteFree(a)
    ensures QuoteFree(Escape(a))
  {
    if a != "" { QuoteFreeEscape(a[1..]); }
  }

  lemma {:induction false} PlainEscape(a: string)
    requires forall i :: 0 <= i < |a| ==> a[i] != QUOTE && a[i] != BACKSLASH
    ensures Escape(a) == a
  {
    if a != "" { PlainEscape(a[1..]); }
  }

  lemma {:induction false} NoBackslashEscape(a: string)
    requires BACKSLASH !in Escape(a)
    ensures Escape(a) == a
  {
    if a != "" {
      assert Escape(a)[0] == BACKSLASH || Escape(a) == [a[0]] + Escape(a[1..]);
      assert forall c :: c in Escape(a[1..]) ==> c in Escape(a);
      NoBackslashEscape(a[1..]);
    }
  }

  lemma FormsBehindQuote(a: string, v: string, key: string)
    requires PlainKey(key)
    ensures Forms(a + [QUOTE] + v, key) <==> Forms(v, key)
  {
    assert [QUOTE] + (a + [QUOTE] + v) == ([QUOTE] + a) + ([QUOTE] + v);
    LastQuoteDecides([QUOTE] + a, [QUOTE] + v, [QUOTE] + key);
  }

  /** `w` starts with a quote and `k` has none behind its first character, so whether a text that
      ends in `w` ends in `k` is decided inside `w`. */
  lemma LastQuoteDecides(x: string, w: string, k: string)
    requires |w| > 0 && w[0] == QUOTE && |k| > 0
    requires forall i :: 1 <= i < |k| ==> k[i] != QUOTE
    ensures (|x + w| >= |k| && (x + w)[|x + w| - |k|..] == k) <==> (|w| >= |k| && w[|w| - |k|..] == k)
  {
    var t := x + w;
    if |w| >= |k| {
      assert t[|t| - |k|..] == w[|w| - |k|..];
    } else if |t| >= |k| {
      var i := |k| - |w|;
      assert t[|t| - |k|..][i] == t[|x|] == w[0];
      assert k[i] != QUOTE;
    }
  }

  /** A printed string value either completes the needle with its closing quote or is stepped
      over: nothing inside it can match. */
  lemma SkipStringValue(v: string, rest: string, key: string)
    requires PlainKey(key)
    ensures After(Quoted(v, rest), Needle(key))
         == if Forms(v, key) then Some(rest) else After([QUOTE] + rest, Needle(key))
  {
    assert "" + v == v;
    SkipEscapedFrom("", v, rest, key);
  }
}
