/** The audit log: quoting, event lines, and a reader that recovers every event. */
module AuditLog {
  import opened Wrappers
  import opened Text
  import opened Decimal
  import opened Timestamp

  const QUOTE := '\"'
  const BACKSLASH := '\\'

  /** `str::replace` of one character by a text. */
  function Replace(s: string, c: char, text: string): string {
    if s == [] then [] else (if s[0] == c then text else [s[0]]) + Replace(s[1..], c, text)
  }

  predicate NeedsQuotes(value: string) {
    exists i | 0 <= i < |value| :: IsSpace(value[i]) || value[i] == QUOTE || value[i] == '='
  }

  /** `quote_if_needed`. */
  function QuoteIfNeeded(value: string): string {
    if value == [] then [QUOTE, QUOTE]
    else if NeedsQuotes(value) then
      [QUOTE] + Replace(Replace(value, BACKSLASH, [BACKSLASH, BACKSLASH]), QUOTE, [BACKSLASH, QUOTE]) + [QUOTE]
    else value
  }

  function Escaped(s: string): string {
    if s == [] then []
    else (if s[0] == QUOTE || s[0] == BACKSLASH then [BACKSLASH, s[0]] else [s[0]]) + Escaped(s[1..])
  }

  lemma {:induction false} ReplaceAppend(a: string, b: string, c: char, text: string)
    ensures Replace(a + b, c, text) == Replace(a, c, text) + Replace(b, c, text)
  {
    if a == [] {
      assert a + b == b;
    } else {
      assert (a + b)[1..] == a[1..] + b && (a + b)[0] == a[0];
      ReplaceAppend(a[1..], b, c, text);
      Assoc(if a[0] == c then text else [a[0]], Replace(a[1..], c, text), Replace(b, c, text));
    }
  }

  /** The two replacements, one after the other, escape each character on its own. */
  lemma {:induction false} TwoReplacesAreOneEscape(s: string)
    ensures Replace(Replace(s, BACKSLASH, [BACKSLASH, BACKSLASH]), QUOTE, [BACKSLASH, QUOTE]) == Escaped(s)
  {
    if s != [] {
      var head := if s[0] == BACKSLASH then [BACKSLASH, BACKSLASH] else [s[0]];
      var tail := Replace(s[1..], BACKSLASH, [BACKSLASH, BACKSLASH]);
      TwoReplacesAreOneEscape(s[1..]);
      ReplaceAppend(head, tail, QUOTE, [BACKSLASH, QUOTE]);
      var none: string := [];
      assert head[1..] == if s[0] == BACKSLASH then [BACKSLASH] else none;
      assert [BACKSLASH][1..] == none;
      assert Replace(none, QUOTE, [BACKSLASH, QUOTE]) == none;
      assert Replace([BACKSLASH], QUOTE, [BACKSLASH, QUOTE]) == [BACKSLASH];
      assert Replace(head, QUOTE, [BACKSLASH, QUOTE]) ==
        if s[0] == QUOTE || s[0] == BACKSLASH then [BACKSLASH, s[0]] else [s[0]];
    }
  }

  // ----- events -----

  datatype Field = Field(key: string, value: string)

  datatype Event = Event(seconds: nat, level: string, message: string, fields: seq<Field>)

  // Texts are written with what follows them, so that they are built and read from the left.

  /** The fields, the end of the line, and then `rest`. */
  function FieldsThen(fields: seq<Field>, rest: string): string {
    if fields == [] then "\n" + rest
    else " " + (fields[0].key + ("=" + (QuoteIfNeeded(fields[0].value) + FieldsThen(fields[1..], rest))))
  }

  /** One line of the log, and then `rest`. */
  function LineThen(e: Event, rest: string): string
    requires e.seconds < END_OF_9999
  {
    Stamp(LOG_FORMAT, e.seconds) + (" " + (e.level + (" " + (e.message + FieldsThen(e.fields, rest)))))
  }

  predicate Dated(events: seq<Event>) {
    forall i | 0 <= i < |events| :: events[i].seconds < END_OF_9999
  }

  function LogThen(events: seq<Event>, rest: string): string
    requires Dated(events)
  {
    if events == [] then rest else LineThen(events[0], LogThen(events[1..], rest))
  }

  lemma {:induction false} FieldsThenAppend(fields: seq<Field>, rest: string, more: string)
    ensures FieldsThen(fields, rest) + more == FieldsThen(fields, rest + more)
  {
    if fields == [] {
      Assoc("\n", rest, more);
    } else {
      var f, tail := fields[0], FieldsThen(fields[1..], rest);
      hide QuoteIfNeeded;
      FieldsThenAppend(fields[1..], rest, more);
      Assoc(QuoteIfNeeded(f.value), tail, more);
      Assoc("=", QuoteIfNeeded(f.value) + tail, more);
      Assoc(f.key, "=" + (QuoteIfNeeded(f.value) + tail), more);
      Assoc(" ", f.key + ("=" + (QuoteIfNeeded(f.value) + tail)), more);
    }
  }

  lemma LineThenAppend(e: Event, rest: string, more: string)
    requires e.seconds < END_OF_9999
    ensures LineThen(e, rest) + more == LineThen(e, rest + more)
  {
    hide Stamp, FieldsThen;
    var tail := FieldsThen(e.fields, rest);
    FieldsThenAppend(e.fields, rest, more);
    Assoc(e.message, tail, more);
    Assoc(" ", e.message + tail, more);
    Assoc(e.level, " " + (e.message + tail), more);
    Assoc(" ", e.level + (" " + (e.message + tail)), more);
    Assoc(Stamp(LOG_FORMAT, e.seconds), " " + (e.level + (" " + (e.message + tail))), more);
  }

  /** Writing one more line to a log is logging one more event. */
  lemma {:induction false} LogGrows(events: seq<Event>, e: Event)
    requires Dated(events) && e.seconds < END_OF_9999
    ensures Dated(events + [e]) && LogThen(events, "") + LineThen(e, "") == LogThen(events + [e], "")
  {
    hide LineThen;
    if events == [] {
      var none: seq<Event> := [];
      assert events + [e] == [e] && [e][1..] == none;
      assert "" + LineThen(e, "") == LineThen(e, "");
    } else {
      LogGrows(events[1..], e);
      LineThenAppend(events[0], LogThen(events[1..], ""), LineThen(e, ""));
      assert (events + [e])[1..] == events[1..] + [e];
    }
  }

  /** Two logs, one behind the other, are one log. */
  lemma {:induction false} LogsJoin(a: seq<Event>, b: seq<Event>)
    requires Dated(a) && Dated(b)
    ensures Dated(a + b) && LogThen(a, "") + LogThen(b, "") == LogThen(a + b, "")
  {
    hide LineThen;
    if a == [] {
      assert a + b == b && "" + LogThen(b, "") == LogThen(b, "");
    } else {
      LogsJoin(a[1..], b);
      LineThenAppend(a[0], LogThen(a[1..], ""), LogThen(b, ""));
      assert (a + b)[1..] == a[1..] + b;
    }
  }

  /** The process-wide sink; `open` is false when the file could not be opened. */
  class Log {
    var open: bool
    var poisoned: bool
    var file: string
    ghost var before: string
    ghost var events: seq<Event>

    /** Behind what was there before, the file is the log of the events written so far. */
    ghost predicate Valid()
      reads this
    {
      Dated(events) && file == before + LogThen(events, "")
    }

    /** A log is appended to whatever the file contains. */
    constructor (open: bool, file: string)
      ensures Valid() && this.open == open && !poisoned && events == [] && before == file
    {
      this.open, this.file, this.poisoned, this.before, this.events := open, file, false, file, [];
    }

    /** Appends the text of exactly one event, or nothing when logging is off; `written` is the write's fate. */
    method WriteEvent(e: Event, written: bool)
      requires Valid() && e.seconds < END_OF_9999
      modifies `file, `events
      ensures Valid() && events == if open && !poisoned && written then old(events) + [e] else old(events)
    {
      hide LineThen, LogThen, Dated;
      if open {
        var line := BuildLine(e);
        if !poisoned && written {
          LogGrows(events, e);
          Assoc(before, LogThen(events, ""), LineThen(e, ""));
          file, events := file + line, events + [e];
        }
      }
    }
  }

  /** The line of `event`, pushed together piece by piece. */
  method BuildLine(e: Event) returns (line: string)
    requires e.seconds < END_OF_9999
    ensures line == LineThen(e, "")
  {
    hide Stamp, QuoteIfNeeded;
    line := Stamp(LOG_FORMAT, e.seconds);
    ghost var tail := FieldsThen(e.fields, "");
    PushMoves(line, " ", e.level + (" " + (e.message + tail)));
    line := line + " ";
    PushMoves(line, e.level, " " + (e.message + tail));
    line := line + e.level;
    PushMoves(line, " ", e.message + tail);
    line := line + " ";
    PushMoves(line, e.message, tail);
    line := line + e.message;
    assert e.fields[0..] == e.fields;
    for i := 0 to |e.fields|
      invariant LineThen(e, "") == line + FieldsThen(e.fields[i..], "")
    {
      line := PushField(line, e.fields[i], FieldsThen(e.fields[i + 1..], ""));
      assert e.fields[i..][1..] == e.fields[i + 1..];
    }
    assert e.fields[|e.fields|..] == [] && "\n" + "" == "\n";
    line := line + "\n";
  }

  /** One ` key=value` pair. */
  method PushField(line: string, field: Field, ghost tail: string) returns (longer: string)
    ensures longer + tail == line + (" " + (field.key + ("=" + (QuoteIfNeeded(field.value) + tail))))
  {
    hide QuoteIfNeeded;
    var value := QuoteIfNeeded(field.value);
    PushMoves(line, " ", field.key + ("=" + (value + tail)));
    longer := line + " ";
    PushMoves(longer, field.key, "=" + (value + tail));
    longer := longer + field.key;
    PushMoves(longer, "=", value + tail);
    longer := longer + "=";
    PushMoves(longer, value, tail);
    longer := longer + value;
  }

  // ----- the reader -----

  /** Text up to the first of two characters, and the rest from there on. */
  function Until(s: string, c: char, d: char): (r: (string, string))
    ensures r.0 + r.1 == s && |r.1| <= |s|
  {
    if s == [] || s[0] == c || s[0] == d then ([], s)
    else
      var (head, rest) := Until(s[1..], c, d);
      ([s[0]] + head, rest)
  }

  /** The rest of a quoted value: the text before the closing quote, and what follows it. */
  function ReadQuoted(s: string): (r: Option<(string, string)>)
    ensures r.Some? ==> |r.value.1| < |s|
  {
    if s == [] then None
    else if s[0] == QUOTE then Some(([], s[1..]))
    else if s[0] == BACKSLASH then
      if |s| < 2 then None
      else
        match ReadQuoted(s[2..])
        case None => None
        case Some((v, rest)) => Some(([s[1]] + v, rest))
    else
      match ReadQuoted(s[1..])
      case None => None
      case Some((v, rest)) => Some(([s[0]] + v, rest))
  }

  function ReadValue(s: string): (r: Option<(string, string)>)
    ensures r.Some? ==> |r.value.1| <= |s|
  {
    if s != [] && s[0] == QUOTE then ReadQuoted(s[1..])
    else Some(Until(s, ' ', '\n'))
  }

  /** The fields of a line, and what follows its end. */
  function ReadFields(s: string): (r: Option<(seq<Field>, string)>)
    ensures r.Some? ==> |r.value.1| < |s|
    decreases |s|
  {
    if s == [] then None
    else if s[0] == '\n' then Some(([], s[1..]))
    else if s[0] != ' ' then None
    else
      var (key, rest) := Until(s[1..], '=', '\n');
      if rest == [] || rest[0] != '=' then None
      else
        match ReadValue(rest[1..])
        case None => None
        case Some((value, rest')) =>
          match ReadFields(rest')
          case None => None
          case Some((fields, after)) => Some(([Field(key, value)] + fields, after))
  }

  /** One event, and the log behind it. */
  function ReadEvent(s: string): (r: Option<(Event, string)>)
    ensures r.Some? ==> |r.value.1| < |s|
  {
    if |s| < 22 || s[20] != ' ' then None
    else
      match Read(s[..20], LOG_FORMAT, 0)
      case None => None
      case Some(f) =>
        var seconds := SecondsOf(f);
        var (level, s1) := Until(s[21..], ' ', '\n');
        if seconds.None? || seconds.value < 0 || s1 == [] || s1[0] != ' ' then None
        else
          var (message, s2) := Until(s1[1..], ' ', '\n');
          match ReadFields(s2)
          case None => None
          case Some((fields, rest)) => Some((Event(seconds.value, level, message, fields), rest))
  }

  function ReadLog(s: string): Option<seq<Event>>
    decreases |s|
  {
    if s == [] then Some([])
    else
      match ReadEvent(s)
      case None => None
      case Some((e, rest)) =>
        match ReadLog(rest)
        case None => None
        case Some(events) => Some([e] + events)
  }

  /** Level, message and keys are words of the program; values are arbitrary. */
  predicate WellNamed(e: Event) {
    && e.seconds < END_OF_9999
    && ' ' !in e.level && '\n' !in e.level && ' ' !in e.message && '\n' !in e.message
    && PlainKeys(e.fields)
  }

  lemma {:induction false} UntilStops(a: string, c: char, d: char, rest: string)
    requires c !in a && d !in a && (rest == [] || rest[0] == c || rest[0] == d)
    ensures Until(a + rest, c, d) == (a, rest)
  {
    if a == [] {
      assert a + rest == rest;
    } else {
      assert (a + rest)[1..] == a[1..] + rest && (a + rest)[0] == a[0];
      UntilStops(a[1..], c, d, rest);
      assert [a[0]] + a[1..] == a;
    }
  }

  lemma {:induction false} ReadQuotedOfEscaped(v: string, rest: string)
    ensures ReadQuoted(Escaped(v) + [QUOTE] + rest) == Some((v, rest))
  {
    var s := Escaped(v) + [QUOTE] + rest;
    if v == [] {
      assert s == [QUOTE] + rest && ([QUOTE] + rest)[1..] == rest;
    } else {
      ReadQuotedOfEscaped(v[1..], rest);
      assert [v[0]] + v[1..] == v;
      var tail := Escaped(v[1..]) + [QUOTE] + rest;
      if v[0] == QUOTE || v[0] == BACKSLASH {
        assert s == [BACKSLASH, v[0]] + tail && s[2..] == tail;
      } else {
        assert s == [v[0]] + tail && s[1..] == tail;
      }
    }
  }

  lemma PlainValue(v: string)
    requires v != [] && !NeedsQuotes(v)
    ensures v[0] != QUOTE && ' ' !in v && '\n' !in v
  {
    assert forall i | 0 <= i < |v| :: !IsSpace(v[i]) && v[i] != QUOTE;
  }

  /** A value is read back, whatever it contains, up to the separator behind it. */
  lemma ReadValueOfQuoted(v: string, rest: string)
    requires rest != [] && (rest[0] == ' ' || rest[0] == '\n')
    ensures ReadValue(QuoteIfNeeded(v) + rest) == Some((v, rest))
  {
    if v == [] || NeedsQuotes(v) {
      TwoReplacesAreOneEscape(v);
      QuotedIsFramed(v);
      hide QuoteIfNeeded, NeedsQuotes;
      ReadQuotedOfEscaped(v, rest);
      Assoc([QUOTE], Escaped(v) + [QUOTE], rest);
      assert ([QUOTE] + (Escaped(v) + [QUOTE] + rest))[1..] == Escaped(v) + [QUOTE] + rest;
    } else {
      PlainValue(v);
      UntilStops(v, ' ', '\n', rest);
      assert (v + rest)[0] == v[0];
    }
  }

  lemma QuotedIsFramed(v: string)
    requires v == [] || NeedsQuotes(v)
    ensures QuoteIfNeeded(v) == [QUOTE] + (Escaped(v) + [QUOTE])
  {
    TwoReplacesAreOneEscape(v);
    Assoc([QUOTE], Escaped(v), [QUOTE]);
  }

  lemma AfterOne(c: char, s: string)
    ensures ([c] + s)[0] == c && ([c] + s)[1..] == s
  {
  }

  predicate PlainKeys(fields: seq<Field>) {
    forall i | 0 <= i < |fields| :: '=' !in fields[i].key && '\n' !in fields[i].key
  }

  lemma {:induction false} ReadFieldsOfText(fields: seq<Field>, rest: string)
    requires PlainKeys(fields)
    ensures ReadFields(FieldsThen(fields, rest)) == Some((fields, rest))
  {
    if fields == [] {
      AfterOne('\n', rest);
    } else {
      hide ReadValue, QuoteIfNeeded;
      var f, more := fields[0], FieldsThen(fields[1..], rest);
      var value := QuoteIfNeeded(f.value) + more;
      AfterOne(' ', f.key + ("=" + value));
      UntilStops(f.key, '=', '\n', "=" + value);
      AfterOne('=', value);
      assert more[0] == ' ' || more[0] == '\n';
      ReadValueOfQuoted(f.value, more);
      ReadFieldsOfText(fields[1..], rest);
      assert [f] + fields[1..] == fields;
    }
  }

  lemma AfterStamp(stamp: string, tail: string)
    requires |stamp| == 20
    ensures (stamp + (" " + tail))[..20] == stamp && (stamp + (" " + tail))[20] == ' '
    ensures (stamp + (" " + tail))[21..] == tail
  {
  }

  lemma ReadEventOfLine(e: Event, rest: string)
    requires WellNamed(e)
    ensures ReadEvent(LineThen(e, rest)) == Some((e, rest))
  {
    var stamp, tail := Stamp(LOG_FORMAT, e.seconds), FieldsThen(e.fields, rest);
    FormatLengths(e.seconds);
    StampReadsBack(LOG_FORMAT, e.seconds);
    ReadFieldsOfText(e.fields, rest);
    assert tail[0] == ' ' || tail[0] == '\n';
    hide Stamp, Read, SecondsOf, FieldsThen, ReadFields;
    AfterStamp(stamp, e.level + (" " + (e.message + tail)));
    UntilStops(e.level, ' ', '\n', " " + (e.message + tail));
    AfterOne(' ', e.message + tail);
    UntilStops(e.message, ' ', '\n', tail);
  }

  /** A log of any length has one reading: all events, with all values, in order. */
  lemma {:induction false} LogReadsBack(events: seq<Event>)
    requires Dated(events) && forall i | 0 <= i < |events| :: WellNamed(events[i])
    ensures ReadLog(LogThen(events, "")) == Some(events)
  {
    hide ReadEvent, LineThen;
    if events != [] {
      var rest := LogThen(events[1..], "");
      ReadEventOfLine(events[0], rest);
      LogReadsBack(events[1..]);
      LineIsNotEmpty(events[0], rest);
      assert [events[0]] + events[1..] == events;
    }
  }

  lemma LineIsNotEmpty(e: Event, rest: string)
    requires e.seconds < END_OF_9999
    ensures LineThen(e, rest) != []
  {
    FormatLengths(e.seconds);
  }

  // ----- events and lines -----

  /** The number of line feeds. */
  function Feeds(s: string): nat {
    if s == [] then 0 else (if s[0] == '\n' then 1 else 0) + Feeds(s[1..])
  }

  lemma {:induction false} FeedsAppend(a: string, b: string)
    ensures Feeds(a + b) == Feeds(a) + Feeds(b)
  {
    if a == [] {
      assert a + b == b;
    } else {
      assert (a + b)[1..] == a[1..] + b && (a + b)[0] == a[0];
      FeedsAppend(a[1..], b);
    }
  }

  lemma {:induction false} NoFeeds(s: string)
    ensures Feeds(s) == 0 <==> '\n' !in s
  {
    if s != [] {
      NoFeeds(s[1..]);
      assert s == [s[0]] + s[1..];
    }
  }

  /** Escaping adds no line feed and removes none. */
  lemma {:induction false} FeedsOfEscaped(s: string)
    ensures Feeds(Escaped(s)) == Feeds(s)
  {
    if s != [] {
      var head := if s[0] == QUOTE || s[0] == BACKSLASH then [BACKSLASH, s[0]] else [s[0]];
      FeedsOfEscaped(s[1..]);
      FeedsAppend(head, Escaped(s[1..]));
      FeedsAppend([s[0]], s[1..]);
      assert [s[0]] + s[1..] == s;
      assert Feeds([s[0]]) == Feeds(head) by {
        assert [s[0]][1..] == [] && (|head| == 2 ==> head[1..] == [s[0]]);
      }
    }
  }

  lemma FeedsOfQuoted(v: string)
    ensures Feeds(QuoteIfNeeded(v)) == Feeds(v)
  {
    if v == [] || NeedsQuotes(v) {
      QuotedIsFramed(v);
      FeedsOfEscaped(v);
      hide QuoteIfNeeded, NeedsQuotes, Escaped;
      assert Feeds([QUOTE]) == 0 by {
        NoFeeds([QUOTE]);
      }
      FeedsAppend([QUOTE], Escaped(v) + [QUOTE]);
      FeedsAppend(Escaped(v), [QUOTE]);
    }
  }

  /** The line feeds in the values of some fields. */
  function FeedsIn(fields: seq<Field>): nat {
    if fields == [] then 0 else Feeds(fields[0].value) + FeedsIn(fields[1..])
  }

  lemma {:induction false} FeedsOfFields(fields: seq<Field>, rest: string)
    requires PlainKeys(fields)
    ensures Feeds(FieldsThen(fields, rest)) == FeedsIn(fields) + 1 + Feeds(rest)
  {
    if fields == [] {
      FeedsAppend("\n", rest);
      assert "\n"[1..] == "" && Feeds("\n") == 1;
    } else {
      var f, more := fields[0], FieldsThen(fields[1..], rest);
      hide QuoteIfNeeded, FeedsIn;
      FeedsOfFields(fields[1..], rest);
      FeedsOfQuoted(f.value);
      NoFeeds(" ");
      NoFeeds("=");
      NoFeeds(f.key);
      FeedsAppend(QuoteIfNeeded(f.value), more);
      FeedsAppend("=", QuoteIfNeeded(f.value) + more);
      FeedsAppend(f.key, "=" + (QuoteIfNeeded(f.value) + more));
      FeedsAppend(" ", f.key + ("=" + (QuoteIfNeeded(f.value) + more)));
      FeedsInFirst(fields);
    }
  }

  lemma FeedsInFirst(fields: seq<Field>)
    requires fields != []
    ensures FeedsIn(fields) == Feeds(fields[0].value) + FeedsIn(fields[1..])
  {
  }

  /** No value of the fields contains a line feed. */
  predicate OneLineValues(fields: seq<Field>) {
    forall i | 0 <= i < |fields| :: '\n' !in fields[i].value
  }

  lemma {:induction false} NoFeedsIn(fields: seq<Field>)
    ensures FeedsIn(fields) == 0 <==> OneLineValues(fields)
  {
    if fields != [] {
      NoFeedsIn(fields[1..]);
      NoFeeds(fields[0].value);
      hide Feeds;
      assert forall i | 1 <= i < |fields| :: fields[i] == fields[1..][i - 1];
      assert forall i | 0 <= i < |fields| - 1 :: fields[1..][i] == fields[i + 1];
    }
  }

  /** The line of an event has the line feeds of its values, and the one at its end. */
  lemma FeedsOfLine(e: Event, rest: string)
    requires WellNamed(e)
    ensures Feeds(LineThen(e, rest)) == FeedsIn(e.fields) + 1 + Feeds(rest)
  {
    var stamp, tail := Stamp(LOG_FORMAT, e.seconds), FieldsThen(e.fields, rest);
    FeedsOfFields(e.fields, rest);
    StampIsOneLine(e.seconds);
    hide Stamp, FieldsThen, FeedsIn, PlainKeys;
    NoFeeds(stamp);
    NoFeeds(" ");
    NoFeeds(e.level);
    NoFeeds(e.message);
    FeedsAppend(e.message, tail);
    FeedsAppend(" ", e.message + tail);
    FeedsAppend(e.level, " " + (e.message + tail));
    FeedsAppend(" ", e.level + (" " + (e.message + tail)));
    FeedsAppend(stamp, " " + (e.level + (" " + (e.message + tail))));
  }

  lemma StampIsOneLine(seconds: nat)
    requires seconds < END_OF_9999
    ensures '\n' !in Stamp(LOG_FORMAT, seconds)
  {
    StampIsFixed(LOG_FORMAT, seconds);
    hide Stamp;
    FixedIsOneLine(FieldsOf(seconds), 0);
  }

  lemma {:induction false} FixedIsOneLine(f: seq<int>, i: nat)
    requires |f| == 6 && i <= 6 && forall k | 0 <= k < 6 :: f[k] >= 0
    ensures '\n' !in Fixed(f, LOG_FORMAT, i)
    decreases 6 - i
  {
    if i < 6 {
      FixedIsOneLine(f, i + 1);
      DigitsAreOneLine(Digits(f[i], WIDTHS[i]));
      assert '\n' !in LOG_FORMAT[i];
    }
  }

  lemma DigitsAreOneLine(s: string)
    requires AllDigits(s)
    ensures '\n' !in s
  {
    assert forall i | 0 <= i < |s| :: IsDigit(s[i]);
  }

  /** One event is one line exactly when none of its values contains a line feed. */
  lemma OneEventOneLine(e: Event)
    requires WellNamed(e)
    ensures Feeds(LineThen(e, "")) == 1 + FeedsIn(e.fields)
    ensures Feeds(LineThen(e, "")) == 1 <==> OneLineValues(e.fields)
  {
    hide LineThen, FeedsIn;
    FeedsOfLine(e, "");
    NoFeedsIn(e.fields);
  }

  predicate AllWellNamed(events: seq<Event>) {
    forall i | 0 <= i < |events| :: WellNamed(events[i])
  }

  predicate AllOneLine(events: seq<Event>) {
    forall i | 0 <= i < |events| :: OneLineValues(events[i].fields)
  }

  lemma AllOneLineCons(events: seq<Event>)
    requires events != []
    ensures AllOneLine(events) <==> OneLineValues(events[0].fields) && AllOneLine(events[1..])
  {
    hide OneLineValues;
    assert forall i | 1 <= i < |events| :: events[i] == events[1..][i - 1];
    assert forall i | 0 <= i < |events| - 1 :: events[1..][i] == events[i + 1];
  }

  /** A log has at least as many lines as events, and exactly as many when all values are one line each. */
  lemma {:induction false} OneLineEach(events: seq<Event>)
    requires Dated(events) && AllWellNamed(events)
    ensures Feeds(LogThen(events, "")) >= |events|
    ensures Feeds(LogThen(events, "")) == |events| <==> AllOneLine(events)
  {
    if events != [] {
      assert WellNamed(events[0]) && AllWellNamed(events[1..]);
      AllOneLineCons(events);
      hide LineThen, FeedsIn, WellNamed, OneLineValues, AllOneLine, AllWellNamed, Feeds;
      OneLineEach(events[1..]);
      FeedsOfLine(events[0], LogThen(events[1..], ""));
      NoFeedsIn(events[0].fields);
    }
  }

  lemma TwoLineValue(key: string, a: string, b: string)
    requires '\n' !in a && '\n' !in b
    ensures FeedsIn([Field(key, a + ("\n" + b))]) == 1
  {
    var f := Field(key, a + ("\n" + b));
    FeedsAppend(a, "\n" + b);
    FeedsAppend("\n", b);
    NoFeeds(a);
    NoFeeds(b);
    assert "\n"[1..] == "" && Feeds("\n") == 1;
    hide Feeds;
    assert [f][1..] == [] && FeedsIn([]) == 0;
  }

  /** An event of two lines: the message of an error may well contain a line feed. */
  function TwoLineEvent(): Event {
    Event(0, "ERROR", "event=error", [Field("message", "first" + ("\n" + "second"))])
  }

  lemma TwoLineEventIsNamed()
    ensures WellNamed(TwoLineEvent())
  {
    hide END_OF_9999;
    assert 0 < END_OF_9999 by {
      EndIsLate();
    }
  }

  lemma EndIsLate()
    ensures 0 < END_OF_9999
  {
  }

  lemma OneEventTwoLines()
    ensures WellNamed(TwoLineEvent()) && Feeds(LineThen(TwoLineEvent(), "")) == 2
  {
    TwoLineEventIsNamed();
    TwoLineValue("message", "first", "second");
    hide Feeds, LineThen, FeedsIn, WellNamed, OneLineValues;
    OneEventOneLine(TwoLineEvent());
  }
}
