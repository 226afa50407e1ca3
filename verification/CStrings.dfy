/** NUL-terminated C strings inside fixed-size char buffers, and the few <string.h> operations
    the configuration code calls. One `char` stands for one byte. */
module CStrings {

  datatype Option<+T> = None | Some(value: T)

  const NUL: char := '\0'

  predicate NulFree(s: string) {
    forall i :: 0 <= i < |s| ==> s[i] != NUL
  }

  /** The C string stored in `bytes`: everything before the first NUL. */
  function CStr(bytes: seq<char>): (s: string)
    ensures NulFree(s)
    ensures s <= bytes
    ensures |s| < |bytes| ==> bytes[|s|] == NUL
  {
    if bytes == [] || bytes[0] == NUL then "" else [bytes[0]] + CStr(bytes[1..])
  }

  /** The buffer holds a NUL, so that its C string ends inside it. */
  predicate Terminated(bytes: seq<char>) {
    |CStr(bytes)| < |bytes|
  }

  /** The C string is the only NUL-free prefix followed by a NUL or by the end of the buffer. */
  lemma {:induction false} CStrUnique(bytes: seq<char>, s: string)
    requires NulFree(s) && s <= bytes
    requires |s| < |bytes| ==> bytes[|s|] == NUL
    ensures CStr(bytes) == s
  {
    if s != "" {
      CStrUnique(bytes[1..], s[1..]);
    }
  }

  /** What `snprintf(buf, size, "%s", s)` stores for a buffer of `size` bytes. */
  function Truncate(s: string, size: nat): (r: string)
    requires size > 0
    ensures r <= s && |r| < size
    ensures r == s || |r| == size - 1
    ensures NulFree(s) ==> NulFree(r)
  {
    if |s| < size then s else s[..size - 1]
  }

  /** strstr(): where `needle` occurs first in `hay`. */
  function StrStr(hay: string, needle: string): (p: Option<nat>)
    ensures p.Some? ==> p.value + |needle| <= |hay|
  {
    if needle <= hay then Some(0)
    else if hay == "" then None
    else
      var q := StrStr(hay[1..], needle);
      if q.Some? then Some(q.value + 1) else None
  }

  /** strstr() finds the least index at which the needle is a prefix, and misses none. */
  lemma {:induction false} StrStrIsLeast(hay: string, needle: string)
    ensures var p := StrStr(hay, needle);
      && (p.Some? ==> needle <= hay[p.value..])
      && forall j :: 0 <= j <= |hay| && (p.Some? ==> j < p.value) ==> !(needle <= hay[j..])
  {
    if !(needle <= hay) && hay != "" {
      StrStrIsLeast(hay[1..], needle);
      var q := StrStr(hay[1..], needle);
      if q.Some? { DropDrop(hay, q.value); }
      forall j | 1 <= j <= |hay| && (q.Some? ==> j < q.value + 1) ensures !(needle <= hay[j..]) {
        DropDrop(hay, j - 1);
      }
    }
  }

  /** The text behind the first occurrence of `needle`, or None if it does not occur. */
  function After(hay: string, needle: string): (rest: Option<string>)
    ensures rest.Some? && NulFree(hay) ==> NulFree(rest.value)
  {
    if needle <= hay then Some(hay[|needle|..])
    else if hay == "" then None
    else After(hay[1..], needle)
  }

  /** Stepping past strstr()'s match is `After`. */
  lemma {:induction false} AfterIsPastStrStr(hay: string, needle: string)
    ensures var p := StrStr(hay, needle);
      After(hay, needle) == if p.Some? then Some(hay[p.value + |needle|..]) else None
  {
    if !(needle <= hay) && hay != "" {
      AfterIsPastStrStr(hay[1..], needle);
      var q := StrStr(hay[1..], needle);
      if q.Some? {
        DropDrop(hay, q.value + |needle|);
      }
    }
  }

  /** The length of what follows tells where strstr() landed. */
  lemma {:induction false} StrStrByLength(hay: string, needle: string, p: nat)
    ensures StrStr(hay, needle) == Some(p)
       <==> After(hay, needle).Some? && |After(hay, needle).value| == |hay| - |needle| - p
  {
    AfterIsPastStrStr(hay, needle);
    var q, rest := StrStr(hay, needle), After(hay, needle);
    if q.Some? { assert |rest.value| == |hay| - (q.value + |needle|); }
  }

  lemma DropDrop(s: string, k: nat)
    requires s != "" && k <= |s| - 1
    ensures s[1..][k..] == s[k + 1..]
  {
  }
}
