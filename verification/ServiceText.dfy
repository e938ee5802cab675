/**
 The text of TeamCity service messages: escaping, framing, and reading both back.
 */
module ServiceText {
  import opened Options

  datatype Property = Property(key: string, value: string)

  /** A message as text sees it: its name and its properties in order. */
  datatype Raw = Raw(kind: string, props: seq<Property>)

  /** Something read off the front of a text, and what is left. */
  datatype Read<+T> = Read(item: T, rest: string)

  // ---------------------------------------------------------------------------------------
  // Escaping.

  function EscapeChar(c: char): string {
    if c == '\n' then "|n"
    else if c == '\r' then "|r"
    else if c == '\'' then "|'"
    else if c == '|' then "||"
    else if c == ']' then "|]"
    else [c]
  }

  function Escape(s: string): string {
    if s == [] then [] else EscapeChar(s[0]) + Escape(s[1..])
  }

  /** The character that a bar and `c` stand for. */
  function UnescapeChar(c: char): Option<char> {
    if c == 'n' then Some('\n')
    else if c == 'r' then Some('\r')
    else if c == '\'' || c == '|' || c == ']' then Some(c)
    else None
  }

  predicate IsSpecial(c: char) {
    c == '\n' || c == '\r' || c == '\'' || c == '|' || c == ']'
  }

  function Unescape(t: string): Option<string> {
    if t == [] then Some([])
    else if t[0] == '|' then
      if |t| == 1 then None
      else
        match (UnescapeChar(t[1]), Unescape(t[2..]))
        case (Some(c), Some(rest)) => Some([c] + rest)
        case _ => None
    else if IsSpecial(t[0]) then None
    else
      match Unescape(t[1..])
      case Some(rest) => Some([t[0]] + rest)
      case None => None
  }

  /** Plain characters and two-character escapes, nothing else. */
  predicate WellEscaped(t: string) {
    || t == []
    || (t[0] == '|' && |t| >= 2 && UnescapeChar(t[1]).Some? && WellEscaped(t[2..]))
    || (!IsSpecial(t[0]) && WellEscaped(t[1..]))
  }

  lemma EscapedCharFirst(c: char, rest: string)
    ensures Unescape(EscapeChar(c) + rest)
         == match Unescape(rest) case Some(r) => Some([c] + r) case None => None
    ensures WellEscaped(EscapeChar(c) + rest) <==> WellEscaped(rest)
  {
    var e := EscapeChar(c);
    if IsSpecial(c) {
      assert (e + rest)[2..] == rest;
    } else {
      assert (e + rest)[1..] == rest;
    }
  }

  /** Unescaping undoes escaping, and escaped text has no special character on its own. */
  lemma {:induction false} UnescapeEscape(s: string)
    ensures Unescape(Escape(s)) == Some(s)
    ensures WellEscaped(Escape(s))
  {
    if s != [] {
      UnescapeEscape(s[1..]);
      EscapedCharFirst(s[0], Escape(s[1..]));
      assert [s[0]] + s[1..] == s;
    }
  }

  lemma EscapeIsInjective(s: string, t: string)
    requires Escape(s) == Escape(t)
    ensures s == t
  {
    UnescapeEscape(s);
    UnescapeEscape(t);
  }

  /** Every well-escaped text is the escape of exactly what it unescapes to. */
  lemma {:induction false} EscapeUnescape(t: string)
    ensures Unescape(t).Some? <==> WellEscaped(t)
    ensures WellEscaped(t) ==> Escape(Unescape(t).value) == t
  {
    if t != [] {
      if t[0] == '|' {
        if |t| >= 2 {
          EscapeUnescape(t[2..]);
          assert t == [t[0], t[1]] + t[2..];
          if WellEscaped(t) {
            var s := Unescape(t).value;
            assert s[1..] == Unescape(t[2..]).value;
          }
        }
      } else {
        EscapeUnescape(t[1..]);
        assert t == [t[0]] + t[1..];
        if WellEscaped(t) {
          var s := Unescape(t).value;
          assert s[1..] == Unescape(t[1..]).value;
        }
      }
    }
  }

  /** What well-escaped means by position: a special character is one half of an escape pair. */
  predicate EscapeStartsAt(t: string, i: int) {
    0 <= i < |t| - 1 && t[i] == '|' && UnescapeChar(t[i + 1]).Some?
  }

  lemma {:induction false} NoBareSpecials(t: string, i: nat)
    requires WellEscaped(t) && i < |t| && IsSpecial(t[i])
    ensures EscapeStartsAt(t, i) || EscapeStartsAt(t, i - 1)
  {
    if t[0] == '|' {
      if i >= 2 {
        NoBareSpecials(t[2..], i - 2);
      } else {
        assert EscapeStartsAt(t, 0);
      }
    } else {
      NoBareSpecials(t[1..], i - 1);
    }
  }

  lemma {:induction false} EscapeAppend(s: string, c: char)
    ensures Escape(s + [c]) == Escape(s) + EscapeChar(c)
  {
    if s == [] {
      assert s + [c] == [c];
      assert Escape([c]) == EscapeChar(c) + Escape([]);
    } else {
      EscapeAppend(s[1..], c);
      assert (s + [c])[1..] == s[1..] + [c];
    }
  }

  // ---------------------------------------------------------------------------------------
  // Framing.

  const HEADER: string := "\n##teamcity["
  const TRAILER: string := "]\n"

  function PropertyText(p: Property): string {
    " " + p.key + "='" + Escape(p.value) + "'"
  }

  function PropertiesText(props: seq<Property>): string {
    if props == [] then [] else PropertyText(props[0]) + PropertiesText(props[1..])
  }

  function Text(raw: Raw): string {
    HEADER + raw.kind + PropertiesText(raw.props) + TRAILER
  }

  /** Message names and property keys are words that the framing characters do not occur in. */
  predicate IsWord(s: string) {
    forall i | 0 <= i < |s| :: s[i] != ' ' && s[i] != ']' && s[i] != '='
  }

  predicate IsFramed(raw: Raw) {
    IsWord(raw.kind) && forall i | 0 <= i < |raw.props| :: IsWord(raw.props[i].key)
  }

  // ---------------------------------------------------------------------------------------
  // Reading.

  function ReadWord(t: string): (r: Read<string>)
    ensures |r.rest| <= |t|
  {
    if t == [] || t[0] == ' ' || t[0] == ']' || t[0] == '=' then Read([], t)
    else
      var r := ReadWord(t[1..]);
      Read([t[0]] + r.item, r.rest)
  }

  /** A value up to its closing quote, unescaped. */
  function ReadValue(t: string): (r: Option<Read<string>>)
    ensures r.Some? ==> |r.value.rest| < |t|
  {
    if t == [] then None
    else if t[0] == '\'' then Some(Read([], t[1..]))
    else if t[0] == '|' then
      if |t| == 1 then None
      else
        match (UnescapeChar(t[1]), ReadValue(t[2..]))
        case (Some(c), Some(r)) => Some(Read([c] + r.item, r.rest))
        case _ => None
    else if IsSpecial(t[0]) then None
    else
      match ReadValue(t[1..])
      case Some(r) => Some(Read([t[0]] + r.item, r.rest))
      case None => None
  }

  function ReadProperty(t: string): (r: Option<Read<Property>>)
    ensures r.Some? ==> |r.value.rest| < |t|
  {
    if t == [] || t[0] != ' ' then None
    else
      var key := ReadWord(t[1..]);
      if |key.rest| < 2 || key.rest[..2] != "='" then None
      else
        match ReadValue(key.rest[2..])
        case Some(v) => Some(Read(Property(key.item, v.item), v.rest))
        case None => None
  }

  /** As many properties as there are. */
  function ReadProperties(t: string): (r: Read<seq<Property>>)
    ensures |r.rest| <= |t|
    decreases |t|
  {
    match ReadProperty(t)
    case None => Read([], t)
    case Some(p) =>
      var r := ReadProperties(p.rest);
      Read([p.item] + r.item, r.rest)
  }

  function ReadMessage(t: string): (r: Option<Read<Raw>>)
    ensures r.Some? ==> |r.value.rest| < |t|
  {
    if !(HEADER <= t) then None
    else
      var kind := ReadWord(t[|HEADER|..]);
      var props := ReadProperties(kind.rest);
      if TRAILER <= props.rest then Some(Read(Raw(kind.item, props.item), props.rest[|TRAILER|..])) else None
  }

  lemma {:induction false} ReadWordBack(w: string, rest: string)
    requires IsWord(w) && rest != [] && !IsWord([rest[0]])
    ensures ReadWord(w + rest) == Read(w, rest)
  {
    if w == [] {
      assert w + rest == rest;
    } else {
      ReadWordBack(w[1..], rest);
      assert (w + rest)[1..] == w[1..] + rest;
      assert [w[0]] + w[1..] == w;
    }
  }

  lemma ReadValueFirst(c: char, more: string)
    ensures ReadValue(EscapeChar(c) + more)
         == match ReadValue(more) case Some(r) => Some(Read([c] + r.item, r.rest)) case None => None
  {
    var e := EscapeChar(c);
    if IsSpecial(c) {
      assert (e + more)[2..] == more;
    } else {
      assert (e + more)[1..] == more;
    }
  }

  lemma {:induction false} ReadValueBack(s: string, tail: string)
    requires tail != [] && tail[0] == '\''
    ensures ReadValue(Escape(s) + tail) == Some(Read(s, tail[1..]))
  {
    if s == [] {
      assert Escape(s) + tail == tail;
    } else {
      var more := Escape(s[1..]) + tail;
      ReadValueBack(s[1..], tail);
      ReadValueFirst(s[0], more);
      EscapeFirst(s, tail);
      assert [s[0]] + s[1..] == s;
    }
  }

  lemma EscapeFirst(s: string, tail: string)
    requires s != []
    ensures Escape(s) + tail == EscapeChar(s[0]) + (Escape(s[1..]) + tail)
  {
  }

  lemma ReadPropertyBack(p: Property, rest: string)
    requires IsWord(p.key)
    ensures ReadProperty(PropertyText(p) + rest) == Some(Read(p, rest))
  {
    var value := Escape(p.value) + ("'" + rest);
    var all := PropertyText(p) + rest;
    assert all[1..] == p.key + ("='" + value);
    assert !IsWord(['=']) by {
      assert ['='][0] == '=';
    }
    ReadWordBack(p.key, "='" + value);
    assert ("='" + value)[..2] == "='" && ("='" + value)[2..] == value;
    ReadValueBack(p.value, "'" + rest);
    assert ("'" + rest)[1..] == rest;
  }

  lemma {:induction false} ReadPropertiesBack(props: seq<Property>, rest: string)
    requires forall i | 0 <= i < |props| :: IsWord(props[i].key)
    requires rest != [] && rest[0] != ' '
    ensures ReadProperties(PropertiesText(props) + rest) == Read(props, rest)
  {
    if props == [] {
      assert PropertiesText(props) + rest == rest;
    } else {
      var more := PropertiesText(props[1..]) + rest;
      assert PropertiesText(props) + rest == PropertyText(props[0]) + more;
      ReadPropertyBack(props[0], more);
      ReadPropertiesBack(props[1..], rest);
      assert [props[0]] + props[1..] == props;
    }
  }

  /** A printed message reads back as itself, whatever is printed after it. */
  lemma ReadMessageBack(raw: Raw, rest: string)
    requires IsFramed(raw)
    ensures ReadMessage(Text(raw) + rest) == Some(Read(raw, rest))
  {
    var tail := TRAILER + rest;
    var body := PropertiesText(raw.props) + tail;
    var all := Text(raw) + rest;
    assert all == HEADER + (raw.kind + body);
    assert all[|HEADER|..] == raw.kind + body;
    BodyStart(raw.props, tail);
    ReadWordBack(raw.kind, body);
    ReadPropertiesBack(raw.props, tail);
    assert tail[|TRAILER|..] == rest;
  }

  lemma BodyStart(props: seq<Property>, tail: string)
    requires tail != [] && tail[0] == ']'
    ensures PropertiesText(props) + tail != []
    ensures !IsWord([(PropertiesText(props) + tail)[0]])
  {
    var c := (PropertiesText(props) + tail)[0];
    assert c == ' ' || c == ']' by {
      if props != [] {
        assert PropertiesText(props)[0] == PropertyText(props[0])[0] == ' ';
      }
    }
    assert [c][0] == c;
  }

  // ---------------------------------------------------------------------------------------
  // Numbers.

  function Digit(d: nat): char
    requires d < 10
  {
    ('0' as int + d) as char
  }

  /** Decimal, without leading zeros. */
  function Decimal(n: nat): (s: string)
    ensures |s| > 0
  {
    if n < 10 then [Digit(n)] else Decimal(n / 10) + [Digit(n % 10)]
  }

  function ReadDecimal(s: string): Option<nat> {
    if s == [] then None
    else
      var last := s[|s| - 1];
      if !('0' <= last <= '9') then None
      else
        var d := last as int - '0' as int;
        if |s| == 1 then Some(d)
        else
          match ReadDecimal(s[..|s| - 1])
          case Some(n) => Some(10 * n + d)
          case None => None
  }

  lemma {:induction false} ReadDecimalBack(n: nat)
    ensures ReadDecimal(Decimal(n)) == Some(n)
  {
    if n >= 10 {
      ReadDecimalBack(n / 10);
      assert Decimal(n)[..|Decimal(n)| - 1] == Decimal(n / 10);
    }
  }
}
