/** JSON documents: an indented printer, and a reader after RFC 8259 that undoes it. */
module Json {
  import opened Wrappers
  import opened Text
  import opened Decimal
  import opened Codec

  datatype Value = Null | Bool(b: bool) | Number(n: int) | String(s: string) | Object(members: Members)

  /** The members of an object, in order. */
  datatype Members = NoMembers | Member(key: string, value: Value, rest: Members)

  // ----- strings -----

  /** `escape`, one character at a time. */
  function EscapeChar(c: char): string {
    if c == '\"' then "\\\""
    else if c == '\\' then "\\\\"
    else if c == '\n' then "\\n"
    else if c == '\r' then "\\r"
    else if c == '\t' then "\\t"
    else if c as int < 0x20 then "\\u00" + [HexDigit(c as int / 16), HexDigit(c as int % 16)]
    else [c]
  }

  function Escape(s: string): string {
    if s == [] then [] else EscapeChar(s[0]) + Escape(s[1..])
  }

  /** The character a four-digit escape stands for; none for half of a surrogate pair. */
  function FromHex4(s: string): Option<char>
    requires |s| == 4
  {
    var (a, b, c, d) := (HexValue(s[0]), HexValue(s[1]), HexValue(s[2]), HexValue(s[3]));
    if a.None? || b.None? || c.None? || d.None? then None
    else
      var n := a.value * 4096 + b.value * 256 + c.value * 16 + d.value;
      if 0xD800 <= n < 0xE000 then None else Some(n as char)
  }

  function Unescaped(c: char): Option<char> {
    if c == '\"' || c == '\\' || c == '/' then Some(c)
    else if c == 'b' then Some(8 as char)
    else if c == 'f' then Some(12 as char)
    else if c == 'n' then Some('\n')
    else if c == 'r' then Some('\r')
    else if c == 't' then Some('\t')
    else None
  }

  /** Section 7: the string whose opening quotation mark has been read, and what follows it. */
  function ReadString(s: string): (r: Option<(string, string)>)
    ensures r.Some? ==> |r.value.1| < |s|
    decreases |s|
  {
    if s == [] then None
    else if s[0] == '\"' then Some(([], s[1..]))
    else if s[0] == '\\' then
      if |s| >= 6 && s[1] == 'u' then
        match FromHex4(s[2..6])
        case None => None
        case Some(c) => Prepend(c, ReadString(s[6..]))
      else if |s| >= 2 && Unescaped(s[1]).Some? then Prepend(Unescaped(s[1]).value, ReadString(s[2..]))
      else None
    else if s[0] as int < 0x20 then None
    else Prepend(s[0], ReadString(s[1..]))
  }

  function Prepend(c: char, r: Option<(string, string)>): (p: Option<(string, string)>)
    ensures p.Some? <==> r.Some?
    ensures p.Some? ==> p.value == ([c] + r.value.0, r.value.1)
  {
    match r
    case None => None
    case Some((s, rest)) => Some(([c] + s, rest))
  }

  lemma ReadEscaped(c: char, tail: string)
    ensures ReadString(EscapeChar(c) + tail) == Prepend(c, ReadString(tail))
  {
    var text := EscapeChar(c) + tail;
    if c == '\"' || c == '\\' || c == '\n' || c == '\r' || c == '\t' {
      assert text[2..] == tail;
    } else if c as int < 0x20 {
      HexDigitValue(c as int / 16);
      HexDigitValue(c as int % 16);
      assert text[6..] == tail;
    } else {
      assert text[1..] == tail;
    }
  }

  lemma HexDigitValue(n: nat)
    requires n < 16
    ensures HexValue(HexDigit(n)) == Some(n)
  {
  }

  /** Decoding a JSON string inverts `escape`. */
  lemma {:induction false} EscapeReadsBack(s: string, rest: string)
    ensures ReadString(Escape(s) + ("\"" + rest)) == Some((s, rest))
  {
    var tail := "\"" + rest;
    if s == [] {
      assert Escape(s) + tail == tail;
      assert tail[1..] == rest;
    } else {
      hide EscapeChar, ReadString;
      EscapeReadsBack(s[1..], rest);
      Assoc(EscapeChar(s[0]), Escape(s[1..]), tail);
      ReadEscaped(s[0], Escape(s[1..]) + tail);
      assert [s[0]] + s[1..] == s;
    }
  }

  // ----- numbers -----

  function PrintNumber(n: int): string {
    if n < 0 then "-" + ToDecimal(-n) else ToDecimal(n)
  }

  /** The digits at the front, and what follows them. */
  function TakeDigits(s: string): (r: (string, string))
    ensures AllDigits(r.0) && s == r.0 + r.1
  {
    if s == [] || !IsDigit(s[0]) then ([], s)
    else
      var (digits, rest) := TakeDigits(s[1..]);
      ([s[0]] + digits, rest)
  }

  function ReadNatural(s: string): (r: Option<(nat, string)>)
    ensures r.Some? ==> |r.value.1| < |s|
  {
    var (digits, rest) := TakeDigits(s);
    if digits == [] || (|digits| > 1 && digits[0] == '0') then None
    else if rest != [] && (rest[0] == '.' || rest[0] == 'e' || rest[0] == 'E') then None
    else Some((FromDecimal(digits), rest))
  }

  /** Section 6, integers only. */
  function ReadNumber(s: string): (r: Option<(int, string)>)
    ensures r.Some? ==> |r.value.1| < |s|
  {
    if s != [] && s[0] == '-' then
      match ReadNatural(s[1..])
      case None => None
      case Some((n, rest)) => Some((0 - n, rest))
    else
      match ReadNatural(s)
      case None => None
      case Some((n, rest)) => Some((n, rest))
  }

  /** Text that may follow a number. */
  predicate AfterNumber(rest: string) {
    rest == [] || (!IsDigit(rest[0]) && rest[0] != '.' && rest[0] != 'e' && rest[0] != 'E')
  }

  lemma {:induction false} TakeDigitsOf(digits: string, rest: string)
    requires AllDigits(digits) && (rest == [] || !IsDigit(rest[0]))
    ensures TakeDigits(digits + rest) == (digits, rest)
  {
    if digits == [] {
      assert digits + rest == rest;
    } else {
      assert (digits + rest)[1..] == digits[1..] + rest && (digits + rest)[0] == digits[0];
      TakeDigitsOf(digits[1..], rest);
      assert [digits[0]] + digits[1..] == digits;
    }
  }

  lemma NaturalReadsBack(n: nat, rest: string)
    requires AfterNumber(rest)
    ensures ReadNatural(ToDecimal(n) + rest) == Some((n, rest)) && IsDigit((ToDecimal(n) + rest)[0])
  {
    var digits := ToDecimal(n);
    DecimalRoundTrip(n);
    TakeDigitsOf(digits, rest);
    hide ToDecimal, FromDecimal, TakeDigits;
    assert (digits + rest)[0] == digits[0];
  }

  lemma NumberReadsBack(n: int, rest: string)
    requires AfterNumber(rest)
    ensures ReadNumber(PrintNumber(n) + rest) == Some((n, rest))
    ensures (PrintNumber(n) + rest)[0] == '-' || IsDigit((PrintNumber(n) + rest)[0])
  {
    hide ReadNatural, ToDecimal;
    if n < 0 {
      NaturalReadsBack(-n, rest);
      Assoc("-", ToDecimal(-n), rest);
      assert ("-" + (ToDecimal(-n) + rest))[1..] == ToDecimal(-n) + rest;
    } else {
      NaturalReadsBack(n, rest);
    }
  }

  // ----- documents -----

  predicate IsBlank(c: char) {
    c == ' ' || c == '\t' || c == '\n' || c == '\r'
  }

  function SkipBlanks(s: string): (r: string)
    ensures |r| <= |s|
  {
    if s != [] && IsBlank(s[0]) then SkipBlanks(s[1..]) else s
  }

  /** A value, and what follows it. */
  function ReadValue(text: string): (r: Option<(Value, string)>)
    ensures r.Some? ==> |r.value.1| < |text|
    decreases |text|, 1
  {
    var s := SkipBlanks(text);
    if s == [] then None
    else if s[0] == '{' then
      var t := SkipBlanks(s[1..]);
      if t == [] then None
      else if t[0] == '}' then Some((Object(NoMembers), t[1..]))
      else
        match ReadMembers(t)
        case None => None
        case Some((members, rest)) => Some((Object(members), rest))
    else if s[0] == '\"' then
      match ReadString(s[1..])
      case None => None
      case Some((v, rest)) => Some((String(v), rest))
    else if s[0] == '-' || IsDigit(s[0]) then
      match ReadNumber(s)
      case None => None
      case Some((n, rest)) => Some((Number(n), rest))
    else if "true" <= s then Some((Bool(true), s[4..]))
    else if "false" <= s then Some((Bool(false), s[5..]))
    else if "null" <= s then Some((Null, s[4..]))
    else None
  }

  /** One or more members and the brace behind them. */
  function ReadMembers(text: string): (r: Option<(Members, string)>)
    ensures r.Some? ==> |r.value.1| < |text|
    decreases |text|, 0
  {
    var s := SkipBlanks(text);
    if s == [] || s[0] != '\"' then None
    else
      match ReadString(s[1..])
      case None => None
      case Some((key, r1)) =>
        var colon := SkipBlanks(r1);
        if colon == [] || colon[0] != ':' then None
        else
          match ReadValue(colon[1..])
          case None => None
          case Some((value, r2)) =>
            var next := SkipBlanks(r2);
            if next == [] then None
            else if next[0] == '}' then Some((Member(key, value, NoMembers), next[1..]))
            else if next[0] != ',' then None
            else
              match ReadMembers(next[1..])
              case None => None
              case Some((more, r3)) => Some((Member(key, value, more), r3))
  }

  /** A whole text: one value with blanks around it. */
  function ReadJson(text: string): Option<Value> {
    match ReadValue(text)
    case None => None
    case Some((v, rest)) => if SkipBlanks(rest) == [] then Some(v) else None
  }

  // ----- the printer -----

  function Indent(depth: nat): string {
    seq(2 * depth, _ => ' ')
  }

  /** A value at some depth of nesting, and then `rest`. */
  function ValueThen(v: Value, depth: nat, rest: string): string
    decreases v
  {
    match v
    case Null => "null" + rest
    case Bool(b) => (if b then "true" else "false") + rest
    case Number(n) => PrintNumber(n) + rest
    case String(s) => "\"" + (Escape(s) + ("\"" + rest))
    case Object(members) =>
      if members.NoMembers? then "{}" + rest
      else "{\n" + MembersThen(members, depth + 1, "\n" + (Indent(depth) + ("}" + rest)))
  }

  /** Members, one to a line, with commas in between. */
  function MembersThen(members: Members, depth: nat, rest: string): string
    decreases members
  {
    match members
    case NoMembers => rest
    case Member(key, value, more) =>
      KeyThen(key, depth,
              ValueThen(value, depth,
                        if more.NoMembers? then rest else ",\n" + MembersThen(more, depth, rest)))
  }

  function KeyThen(key: string, depth: nat, rest: string): string {
    Indent(depth) + ("\"" + (Escape(key) + ("\"" + (": " + rest))))
  }

  // ----- reading what was printed -----

  lemma SkipOne(c: char, rest: string)
    ensures IsBlank(c) ==> SkipBlanks([c] + rest) == SkipBlanks(rest)
    ensures !IsBlank(c) ==> SkipBlanks([c] + rest) == [c] + rest
    ensures ([c] + rest)[1..] == rest && ([c] + rest)[0] == c
  {
  }

  lemma {:induction false} SkipIndent(depth: nat, rest: string)
    ensures SkipBlanks(Indent(depth) + rest) == SkipBlanks(rest)
  {
    if depth == 0 {
      assert Indent(0) + rest == rest;
    } else {
      var tail := Indent(depth - 1) + rest;
      assert Indent(depth) == "  " + Indent(depth - 1);
      assert Indent(depth) + rest == " " + (" " + tail);
      SkipOne(' ', " " + tail);
      SkipOne(' ', tail);
      SkipIndent(depth - 1, rest);
    }
  }

  lemma {:induction false} SkipTwice(s: string)
    ensures SkipBlanks(SkipBlanks(s)) == SkipBlanks(s)
  {
    if s != [] && IsBlank(s[0]) {
      SkipTwice(s[1..]);
    }
  }

  /** Blanks in front of a value or of members do not matter. */
  lemma BlanksDoNotMatter(a: string, b: string)
    requires SkipBlanks(a) == SkipBlanks(b)
    ensures ReadValue(a) == ReadValue(b) && ReadMembers(a) == ReadMembers(b)
  {
  }

  /** The end of an object, and then `rest`. */
  function CloseThen(depth: nat, rest: string): string {
    "\n" + (Indent(depth) + ("}" + rest))
  }

  lemma SkipToBrace(depth: nat, rest: string)
    ensures SkipBlanks(CloseThen(depth, rest)) == "}" + rest && ("}" + rest)[1..] == rest
    ensures AfterNumber(CloseThen(depth, rest))
  {
    SkipOne('\n', Indent(depth) + ("}" + rest));
    SkipIndent(depth, "}" + rest);
    SkipOne('}', rest);
  }

  lemma ScalarReadsBack(v: Value, depth: nat, rest: string)
    requires AfterNumber(rest) && (v.Null? || v.Bool?)
    ensures ReadValue(ValueThen(v, depth, rest)) == Some((v, rest))
  {
    var word := if v.Null? then "null" else if v.b then "true" else "false";
    var text := word + rest;
    assert text[|word|..] == rest && word <= text;
    assert text[0] == word[0];
    assert word == "false" ==> !("true" <= text);
    assert word == "null" ==> !("true" <= text) && !("false" <= text);
  }

  lemma NumberOrStringReadsBack(v: Value, depth: nat, rest: string)
    requires AfterNumber(rest) && (v.Number? || v.String?)
    ensures ReadValue(ValueThen(v, depth, rest)) == Some((v, rest))
  {
    if v.Number? {
      NumberReadsBack(v.n, rest);
      hide PrintNumber, ReadNumber;
      var text := PrintNumber(v.n) + rest;
      assert SkipBlanks(text) == text;
    } else {
      hide ReadString;
      EscapeReadsBack(v.s, rest);
      SkipOne('\"', Escape(v.s) + ("\"" + rest));
    }
  }

  /** Printing and reading back gives the same document, whatever its keys, strings and numbers. */
  lemma {:induction false} ValueReadsBack(v: Value, depth: nat, rest: string)
    requires AfterNumber(rest)
    ensures ReadValue(ValueThen(v, depth, rest)) == Some((v, rest))
    decreases v
  {
    match v {
      case Null => ScalarReadsBack(v, depth, rest);
      case Bool(b) => ScalarReadsBack(v, depth, rest);
      case Number(n) => NumberOrStringReadsBack(v, depth, rest);
      case String(s) => NumberOrStringReadsBack(v, depth, rest);
      case Object(members) =>
        if members.NoMembers? {
          SkipOne('{', "}" + rest);
          SkipOne('}', rest);
          assert "{}" + rest == "{" + ("}" + rest);
        } else {
          var inner := MembersThen(members, depth + 1, CloseThen(depth, rest));
          MembersReadBack(members, depth + 1, depth, rest);
          ObjectReadsBack(members, inner, rest);
        }
    }
  }

  lemma ObjectReadsBack(members: Members, inner: string, rest: string)
    requires ReadMembers(inner) == Some((members, rest))
    ensures ReadValue("{\n" + inner) == Some((Object(members), rest))
  {
    hide ReadMembers, ReadValue, SkipBlanks;
    var after := "\n" + inner;
    assert "{\n" + inner == "{" + after;
    SkipOne('\n', inner);
    SkipTwice(inner);
    BlanksDoNotMatter(inner, SkipBlanks(after));
    MembersStartWithQuote(inner);
    ReadBraced(members, after, rest);
  }

  lemma ReadBraced(members: Members, after: string, rest: string)
    requires ReadMembers(SkipBlanks(after)) == Some((members, rest))
    requires SkipBlanks(after) != [] && SkipBlanks(after)[0] == '\"'
    ensures ReadValue("{" + after) == Some((Object(members), rest))
  {
    SkipOne('{', after);
    hide ReadMembers, SkipBlanks, ReadString, ReadNumber;
  }

  lemma MembersStartWithQuote(inner: string)
    requires ReadMembers(inner).Some?
    ensures SkipBlanks(inner) != [] && SkipBlanks(inner)[0] == '\"'
  {
  }

  /** What is left to do behind the key of a member. */
  function ReadFromColon(key: string, text: string): Option<(Members, string)> {
    var colon := SkipBlanks(text);
    if colon == [] || colon[0] != ':' then None
    else
      match ReadValue(colon[1..])
      case None => None
      case Some((value, after)) => ReadFromValue(key, value, after)
  }

  /** What is left to do behind the value of a member. */
  function ReadFromValue(key: string, value: Value, text: string): Option<(Members, string)> {
    var next := SkipBlanks(text);
    if next == [] then None
    else if next[0] == '}' then Some((Member(key, value, NoMembers), next[1..]))
    else if next[0] != ',' then None
    else
      match ReadMembers(next[1..])
      case None => None
      case Some((more, rest)) => Some((Member(key, value, more), rest))
  }

  lemma ReadMembersInSteps(depth: nat, quoted: string)
    ensures ReadMembers(Indent(depth) + ("\"" + quoted)) ==
            match ReadString(quoted)
            case None => None
            case Some((key, text)) => ReadFromColon(key, text)
  {
    SkipIndent(depth, "\"" + quoted);
    SkipOne('\"', quoted);
    hide ReadString, SkipBlanks, ReadValue, Indent;
  }

  lemma ReadColon(key: string, shown: string)
    ensures ReadFromColon(key, ": " + shown) ==
            match ReadValue(shown)
            case None => None
            case Some((value, after)) => ReadFromValue(key, value, after)
  {
    assert ": " + shown == ":" + (" " + shown);
    SkipOne(':', " " + shown);
    SkipOne(' ', shown);
    BlanksDoNotMatter(" " + shown, shown);
    hide ReadValue, SkipBlanks, ReadFromValue;
  }

  lemma ReadComma(key: string, value: Value, tail: string)
    requires ReadMembers(tail).Some?
    ensures
      var (more, rest) := ReadMembers(tail).value;
      ReadFromValue(key, value, ",\n" + tail) == Some((Member(key, value, more), rest))
  {
    assert ",\n" + tail == "," + ("\n" + tail);
    SkipOne(',', "\n" + tail);
    SkipOne('\n', tail);
    BlanksDoNotMatter("\n" + tail, tail);
    hide ReadMembers, SkipBlanks;
  }

  lemma {:induction false} MembersReadBack(members: Members, depth: nat, outer: nat, rest: string)
    requires members.Member?
    ensures ReadMembers(MembersThen(members, depth, CloseThen(outer, rest))) == Some((members, rest))
    decreases members
  {
    var end := CloseThen(outer, rest);
    var Member(key, value, more) := members;
    var tail := MembersThen(more, depth, end);
    var after := if more.NoMembers? then end else ",\n" + tail;
    var shown := ValueThen(value, depth, after);
    SkipToBrace(outer, rest);
    hide ReadValue, ReadMembers, CloseThen, Escape, Indent, ReadString, ReadFromColon, ReadFromValue;
    ValueReadsBack(value, depth, after);
    ReadMembersInSteps(depth, Escape(key) + ("\"" + (": " + shown)));
    EscapeReadsBack(key, ": " + shown);
    ReadColon(key, shown);
    if more.Member? {
      MembersReadBack(more, depth, outer, rest);
      ReadComma(key, value, tail);
    } else {
      ReadBrace(key, value, end, rest);
    }
  }

  lemma ReadBrace(key: string, value: Value, end: string, rest: string)
    requires SkipBlanks(end) == "}" + rest
    ensures ReadFromValue(key, value, end) == Some((Member(key, value, NoMembers), rest))
  {
    SkipOne('}', rest);
  }

  /** A printed document followed by a line feed is a JSON text that reads back. */
  lemma DocumentReadsBack(v: Value)
    ensures ReadJson(ValueThen(v, 0, "\n")) == Some(v)
  {
    hide ReadValue, ValueThen;
    ValueReadsBack(v, 0, "\n");
    assert SkipBlanks("\n") == [];
  }
}
