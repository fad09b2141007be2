/** Percent-decoding of SOCKS credentials: mosquitto__urldecode in src/mqtt/client_shared.cc. */
module UrlDecode {
  import opened Text

  /** The byte that an escape at the front of s stands for. The byte of %40 is the parameter at: the comment
      above the C function promises '@', its code stores ':'. */
  function Escape(s: string, at: char): Option<char> {
    if |s| < 3 || s[0] != '%' then None
    else if s[1] == '2' && s[2] == '5' then Some('%')
    else if s[1] == '3' && (s[2] == 'A' || s[2] == 'a') then Some(':')
    else if s[1] == '4' && s[2] == '0' then Some(at)
    else None
  }

  /** How far decoding gets: what has been decoded, and the rest from the first escape it cannot read. */
  datatype Progress = Progress(done: string, rest: string) {
    predicate Complete() {
      rest == ""
    }
  }

  /** Decoding as a single pass that never looks back at its output. */
  function Decode(s: string, at: char): Progress {
    if s == "" then Progress("", "")
    else if s[0] != '%' then
      var p := Decode(s[1..], at);
      Progress([s[0]] + p.done, p.rest)
    else
      match Escape(s, at)
      case None => Progress("", s)
      case Some(c) =>
        var p := Decode(s[3..], at);
        Progress([c] + p.done, p.rest)
  }

  /** Without a '%' there is nothing to do, so leaving early changes nothing. */
  lemma {:induction false} DecodePlain(s: string, at: char)
    requires '%' !in s
    ensures Decode(s, at) == Progress(s, "")
  {
    if s == "" {
    } else {
      DecodePlain(s[1..], at);
    }
  }

  /** Moves the text behind an escape at position i two places to the left and ends it again; len is the length
      after the move. */
  method CloseGap(str: array<char>, i: nat, len: nat)
    requires i + 1 <= len && len + 2 < str.Length
    modifies str
    ensures str[..] == old(str[..i + 1] + str[i + 3..len + 2]) + ['\0'] + old(str[len + 1..])
  {
    var j := i + 1;
    while j < len
      invariant i + 1 <= j <= len
      invariant forall k :: 0 <= k < i + 1 ==> str[k] == old(str[k])
      invariant forall k :: i + 1 <= k < j ==> str[k] == old(str[k + 2])
      invariant forall k :: j <= k < str.Length ==> str[k] == old(str[k])
    {
      str[j] := str[j + 2];
      j := j + 1;
    }
    str[j] := '\0';
  }

  /** One escape handled in place at position i: the escape becomes one byte and the tail moves left. */
  method Replace(str: array<char>, i: nat, len: nat, c: char) returns (len': nat)
    requires i + 2 < len < str.Length
    modifies str
    ensures len' == len - 2
    ensures str[..len'] == old(str[..i]) + [c] + old(str[i + 3..len])
    ensures str[len'] == '\0'
    ensures forall k :: len <= k < str.Length ==> str[k] == old(str[k])
  {
    str[i] := c;
    len' := len - 2;
    ghost var before := str[..];
    CloseGap(str, i, len');
    assert str[..] == before[..i + 1] + before[i + 3..len' + 2] + ['\0'] + before[len' + 1..];
  }

  /** The loop's invariant on the buffer: what precedes i is decoded, i..len is still to do, len ends it. */
  ghost predicate Midway(s0: string, buf: seq<char>, i: nat, len: nat, at: char) {
    && i <= len < |buf| && buf[len] == '\0' && '\0' !in buf[..len]
    && var p := Decode(buf[i..len], at);
       Decode(s0, at) == Progress(buf[..i] + p.done, p.rest)
  }

  lemma StepPlain(s0: string, buf: seq<char>, i: nat, len: nat, at: char)
    requires Midway(s0, buf, i, len, at) && i < len && buf[i] != '%'
    ensures Midway(s0, buf, i + 1, len, at)
  {
    var todo := buf[i..len];
    assert todo[1..] == buf[i + 1..len];
    var d := Decode(todo[1..], at).done;
    assert buf[..i] + ([todo[0]] + d) == buf[..i + 1] + d;
  }

  lemma StepEscape(s0: string, buf: seq<char>, buf': seq<char>, i: nat, len: nat, c: char, at: char)
    requires Midway(s0, buf, i, len, at) && i < len && Escape(buf[i..len], at) == Some(c) && c != '\0'
    requires |buf'| == |buf| && buf'[len - 2] == '\0'
    requires buf'[..len - 2] == buf[..i] + [c] + buf[i + 3..len]
    ensures Midway(s0, buf', i + 1, len - 2, at)
  {
    var todo := buf[i..len];
    assert todo[3..] == buf[i + 3..len];
    var d := Decode(todo[3..], at).done;
    var whole := buf'[..len - 2];
    assert buf'[..i + 1] == whole[..i + 1] == buf[..i] + [c];
    assert buf'[i + 1..len - 2] == whole[i + 1..] == todo[3..];
    assert buf[..i] + ([c] + d) == buf'[..i + 1] + d;
    forall k | 0 <= k < len - 2
      ensures buf'[k] != '\0'
    {
      assert buf'[k] == whole[k];
      assert whole[k] == c || whole[k] in buf[..len];
    }
  }

  lemma StepStuck(s0: string, buf: seq<char>, i: nat, len: nat, at: char)
    requires Midway(s0, buf, i, len, at) && i < len && buf[i] == '%' && Escape(buf[i..len], at).None?
    ensures !Decode(s0, at).Complete() && CStr(buf) == Decode(s0, at).done + Decode(s0, at).rest
  {
    CStrIs(buf, len);
    assert buf[..i] + "" + buf[i..len] == buf[..len];
  }

  lemma StepDone(s0: string, buf: seq<char>, len: nat, at: char)
    requires Midway(s0, buf, len, len, at)
    ensures Decode(s0, at) == Progress(buf[..len], "") && CStr(buf) == buf[..len]
  {
    CStrIs(buf, len);
    assert buf[..len] + "" == buf[..len];
  }

  /** The loop body on a percent sign; ok is false where the source gives up. */
  method ReplaceEscape(str: array<char>, i: nat, len: nat, at: char) returns (ok: bool, len': nat)
    requires i < len < str.Length && str[i] == '%'
    modifies str
    ensures ok <==> old(Escape(str[i..len], at)).Some?
    ensures !ok ==> str[..] == old(str[..])
    ensures ok ==>
              && i + 2 < len && len' == len - 2 && str[len'] == '\0'
              && str[..len'] == old(str[..i]) + [old(Escape(str[i..len], at)).value] + old(str[i + 3..len])
    ensures forall k :: len <= k < str.Length ==> str[k] == old(str[k])
  {
    if i + 2 >= len {
      return false, len;
    }
    if str[i + 1] == '2' && str[i + 2] == '5' {
      len' := Replace(str, i, len, '%');
    } else if str[i + 1] == '3' && (str[i + 2] == 'A' || str[i + 2] == 'a') {
      len' := Replace(str, i, len, ':');
    } else if str[i + 1] == '4' && str[i + 2] == '0' {
      len' := Replace(str, i, len, at);
    } else {
      return false, len;
    }
    ok := true;
  }

  /** The loop over the buffer; its bound len shrinks while i grows. */
  method DecodeLoop(str: array<char>, n: nat, at: char) returns (rc: int)
    requires n < str.Length && str[n] == '\0' && '\0' !in str[..n] && at != '\0'
    modifies str
    ensures var p := Decode(old(str[..n]), at);
            && rc == (if p.Complete() then 0 else 1)
            && '\0' in str[..] && CStr(str[..]) == p.done + p.rest
    ensures forall k :: n <= k < str.Length ==> str[k] == old(str[k])
  {
    ghost var s0 := str[..n];
    var i: nat, len: nat := 0, n;
    assert Midway(s0, str[..], i, len, at) by {
      assert str[..0] + Decode(s0, at).done == Decode(s0, at).done;
    }
    while i < len
      invariant i <= len <= n && Midway(s0, str[..], i, len, at)
      invariant forall k :: n <= k < str.Length ==> str[k] == old(str[k])
      decreases len - i
    {
      ghost var before, l := str[..], len;
      if str[i] == '%' {
        var ok;
        ok, len := ReplaceEscape(str, i, len, at);
        if !ok {
          StepStuck(s0, str[..], i, l, at);
          return 1;
        }
        StepEscape(s0, before, str[..], i, l, Escape(before[i..l], at).value, at);
      } else {
        StepPlain(s0, before, i, len, at);
      }
      i := i + 1;
    }
    StepDone(s0, str[..], len, at);
    return 0;
  }

  /** The decoder rewrites a NUL-terminated buffer in place. */
  method UrlDecode(str: array?<char>, at: char) returns (rc: int)
    requires at != '\0'
    requires str != null ==> '\0' in str[..]
    modifies if str == null then {} else {str}
    ensures str == null ==> rc == 0
    ensures str != null ==>
              var p := Decode(old(CStr(str[..])), at);
              && rc == (if p.Complete() then 0 else 1)
              && '\0' in str[..] && CStr(str[..]) == p.done + p.rest
    // Nothing from the original terminator on is written.
    ensures str != null ==> forall k :: old(|CStr(str[..])|) <= k < str.Length ==> str[k] == old(str[k])
  {
    if str == null {
      return 0;
    }
    var s := CStr(str[..]);
    if '%' !in s {
      DecodePlain(s, at);
      assert s + "" == s;
      return 0;
    }
    assert str[..|s|] == s;
    rc := DecodeLoop(str, |s|, at);
  }

  // What decoding means, without a decoder

  datatype Token = Plain(c: char) | Percent | UpperColon | LowerColon | At

  ghost predicate Tokens(ts: seq<Token>) {
    forall i :: 0 <= i < |ts| ==> ts[i] != Plain('%')
  }

  function Spelling(t: Token): string {
    match t
    case Plain(c) => [c]
    case Percent => "%25"
    case UpperColon => "%3A"
    case LowerColon => "%3a"
    case At => "%40"
  }

  function Meaning(t: Token, at: char): char {
    match t
    case Plain(c) => c
    case Percent => '%'
    case UpperColon => ':'
    case LowerColon => ':'
    case At => at
  }

  function Spell(ts: seq<Token>): string {
    if ts == [] then "" else Spelling(ts[0]) + Spell(ts[1..])
  }

  function Mean(ts: seq<Token>, at: char): string {
    if ts == [] then "" else [Meaning(ts[0], at)] + Mean(ts[1..], at)
  }

  lemma {:induction false} DecodeSpelled(ts: seq<Token>, at: char)
    requires Tokens(ts)
    ensures Decode(Spell(ts), at) == Progress(Mean(ts, at), "")
  {
    if ts == [] {
    } else {
      DecodeSpelled(ts[1..], at);
      var s := Spell(ts);
      if ts[0].Plain? {
        assert s[1..] == Spell(ts[1..]);
      } else {
        assert s[0] == '%' && s[3..] == Spell(ts[1..]);
        assert Escape(s, at) == Some(Meaning(ts[0], at));
      }
    }
  }

  lemma {:induction false} SpelledIfDecoded(s: string, at: char) returns (ts: seq<Token>)
    requires Decode(s, at).Complete()
    ensures Tokens(ts) && Spell(ts) == s && Mean(ts, at) == Decode(s, at).done
  {
    if s == "" {
      ts := [];
    } else if s[0] != '%' {
      var us := SpelledIfDecoded(s[1..], at);
      ts := [Plain(s[0])] + us;
      assert ts[1..] == us;
    } else {
      var us := SpelledIfDecoded(s[3..], at);
      var t := if s[1] == '2' then Percent else if s[1] == '4' then At
               else if s[2] == 'A' then UpperColon else LowerColon;
      assert s[..3] == Spelling(t);
      ts := [t] + us;
      assert ts[1..] == us;
    }
  }

  /** Decoding accepts s with result t exactly when s is some spelling of t. */
  lemma DecodesIffSpelling(s: string, t: string, at: char)
    ensures Decode(s, at) == Progress(t, "")
       <==> exists ts :: Tokens(ts) && Spell(ts) == s && Mean(ts, at) == t
  {
    if Decode(s, at) == Progress(t, "") {
      var ts := SpelledIfDecoded(s, at);
      assert Tokens(ts) && Spell(ts) == s && Mean(ts, at) == t;
    }
    forall ts | Tokens(ts) && Spell(ts) == s && Mean(ts, at) == t
      ensures Decode(s, at) == Progress(t, "")
    {
      DecodeSpelled(ts, at);
    }
  }

  // Round trip

  /** The text with its three special characters escaped, as a proxy URL has to carry it. */
  function Encode(t: string): string {
    if t == "" then ""
    else (if t[0] == '%' then "%25" else if t[0] == ':' then "%3A" else if t[0] == '@' then "%40" else [t[0]])
         + Encode(t[1..])
  }

  /** t with every '@' turned into c. */
  function ReplaceAt(t: string, c: char): (r: string)
    ensures |r| == |t|
    ensures forall i :: 0 <= i < |t| ==> r[i] == if t[i] == '@' then c else t[i]
  {
    if t == "" then "" else [if t[0] == '@' then c else t[0]] + ReplaceAt(t[1..], c)
  }

  lemma {:induction false} DecodeEncode(t: string, at: char)
    ensures Decode(Encode(t), at) == Progress(ReplaceAt(t, at), "")
  {
    if t == "" {
    } else {
      DecodeEncode(t[1..], at);
      var s := Encode(t);
      if t[0] == '%' || t[0] == ':' || t[0] == '@' {
        assert s[3..] == Encode(t[1..]);
      } else {
        assert s[1..] == Encode(t[1..]);
      }
    }
  }

  /** Encoded text survives decoding exactly when %40 gives back '@' or there is no '@' to lose. */
  lemma RoundTrips(t: string, at: char)
    ensures Decode(Encode(t), at) == Progress(t, "") <==> at == '@' || '@' !in t
  {
    DecodeEncode(t, at);
    var r := ReplaceAt(t, at);
    if at == '@' || '@' !in t {
      assert r == t;
    } else {
      var i :| 0 <= i < |t| && t[i] == '@';
      assert r[i] != t[i];
    }
  }

  /** Escaped text holds no separator, and some character of it for every character of the original. */
  lemma {:induction false} EncodeHidesSeparators(t: string)
    ensures ':' !in Encode(t) && '@' !in Encode(t) && |Encode(t)| >= |t|
    ensures '\0' in Encode(t) <==> '\0' in t
  {
    if t == "" {
    } else {
      EncodeHidesSeparators(t[1..]);
    }
  }

  /** A decoded text has a character for every character or escape read, and no '@' of its own making. */
  lemma {:induction false} DecodedText(s: string, at: char)
    ensures var p := Decode(s, at);
            && (s != "" && p.Complete() ==> p.done != "")
            && ('@' in p.done ==> '@' in s || at == '@')
  {
    if s != "" && (s[0] != '%' || Escape(s, at).Some?) {
      DecodedText(if s[0] != '%' then s[1..] else s[3..], at);
    }
  }
}
