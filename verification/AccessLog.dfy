/** The Combined Log Format line, and why no request can forge its fields. */
module AccessLog {
  import opened Prelude
  import opened Text

  datatype Line = Line(
    host: string, authuser: Option<string>, time: string, verb: string, target: string, proto: string,
    status: nat, bytes: Option<nat>, referer: Option<string>, ua: Option<string>)

  // ----- Printing ------------------------------------------------------------------------------

  function Decimal(n: nat): (s: string)
    ensures s != ""
  {
    if n < 10 then [('0' as int + n) as char] else Decimal(n / 10) + [('0' as int + n % 10) as char]
  }

  /** `s` with every `c` replaced by `with`, as `str::replace` does. */
  function Replace(s: string, c: char, with: string): string {
    if s == "" then "" else (if s[0] == c then with else [s[0]]) + Replace(s[1..], c, with)
  }

  /** Escape backslashes, then double quotes. */
  function ClfQuoted(s: string): string {
    Replace(Replace(s, '\\', "\\\\"), '"', "\\\"")
  }

  /** Unicode category Cc. */
  predicate IsControl(c: char) {
    c <= '\U{1F}' || '\U{7F}' <= c <= '\U{9F}'
  }

  /** A user name with control characters and the delimiters of the unquoted field dropped. */
  function CleanUser(s: string): string {
    if s == "" then ""
    else
      (if IsControl(s[0]) || s[0] == ' ' || s[0] == '"' || s[0] == '[' || s[0] == ']' then "" else [s[0]])
      + CleanUser(s[1..])
  }

  /** A present, non-empty value, or a dash. */
  function Dash(s: Option<string>): string {
    if s.Some? && s.value != "" then s.value else "-"
  }

  function MapSome(s: Option<string>, f: string -> string): Option<string> {
    if s.None? then None else Some(f(s.value))
  }

  function FormatClf(l: Line): string {
    var host := if l.host == "" then "-" else l.host;
    var bytes := if l.bytes.None? then "-" else Decimal(l.bytes.value);
    (host + " - " + Dash(MapSome(l.authuser, CleanUser)) + " [" + l.time + "] \""
     + (l.verb + " " + ClfQuoted(l.target) + " " + l.proto) + "\"")
    + (" " + Decimal(l.status) + " " + bytes
       + " \"" + Dash(MapSome(l.referer, ClfQuoted)) + "\" \"" + Dash(MapSome(l.ua, ClfQuoted)) + "\"")
  }

  // ----- Escaping ---------------------------------------------------------------------------------

  function EscapeChar(c: char): string {
    if c == '\\' then "\\\\" else if c == '"' then "\\\"" else [c]
  }

  /** Backslashes and quotes escaped in one pass. */
  function Escape(s: string): string {
    if s == "" then "" else EscapeChar(s[0]) + Escape(s[1..])
  }

  lemma {:induction false} ReplaceConcat(a: string, b: string, c: char, with: string)
    ensures Replace(a + b, c, with) == Replace(a, c, with) + Replace(b, c, with)
  {
    if a == "" {
      assert a + b == b;
    } else {
      assert (a + b)[1..] == a[1..] + b;
      ReplaceConcat(a[1..], b, c, with);
    }
  }

  /** The two successive replacements are one escaping pass. */
  lemma {:induction false} QuotedIsEscape(s: string)
    ensures ClfQuoted(s) == Escape(s)
  {
    if s != "" {
      var first := if s[0] == '\\' then "\\\\" else [s[0]];
      QuotedIsEscape(s[1..]);
      ReplaceConcat(first, Replace(s[1..], '\\', "\\\\"), '"', "\\\"");
      assert Replace(first, '"', "\\\"") == EscapeChar(s[0]) by {
        if s[0] == '\\' {
          assert "\\\\"[1..] == "\\" && "\\"[1..] == "";
        } else {
          assert [s[0]][1..] == "";
        }
      }
    }
  }

  // ----- Reading a line back --------------------------------------------------------------------------

  /** Read a quoted field's inside up to its closing quote, undoing the escapes. */
  function ReadQuoted(s: string): Option<(string, string)> {
    if s == "" then None
    else if s[0] == '"' then Some(("", s[1..]))
    else if s[0] == '\\' then
      if |s| < 2 then None
      else
        (match ReadQuoted(s[2..])
         case None => None
         case Some((v, rest)) => Some(([s[1]] + v, rest)))
    else
      match ReadQuoted(s[1..])
      case None => None
      case Some((v, rest)) => Some(([s[0]] + v, rest))
  }

  /** Drop a fixed delimiter. */
  function Skip(s: string, prefix: string): Option<string> {
    if prefix <= s then Some(s[|prefix|..]) else None
  }

  /** The fields of a Combined Log Format line, unescaped. */
  datatype Fields = Fields(host: string, user: string, time: string, request: string,
                           status: string, bytes: string, referer: string, ua: string)

  /** Everything after the quoted request: two bare numbers and two quoted strings. */
  function ReadTail(s7: string): Option<(string, string, string, string)> {
    match Skip(s7, " ")
    case None => None
    case Some(s8) =>
    match SplitOnce(s8, ' ')
    case None => None
    case Some((status, s9)) =>
    match SplitOnce(s9, ' ')
    case None => None
    case Some((bytes, s10)) =>
    match Skip(s10, "\"")
    case None => None
    case Some(s11) =>
    match ReadQuoted(s11)
    case None => None
    case Some((referer, s12)) =>
    match Skip(s12, " \"")
    case None => None
    case Some(s13) =>
    match ReadQuoted(s13)
    case None => None
    case Some((ua, s14)) => if s14 == "" then Some((status, bytes, referer, ua)) else None
  }

  /** A Combined Log Format reader: three bare words, a bracketed time, a quoted request
      and the tail. */
  function Tokenize(s: string): Option<Fields> {
    match SplitOnce(s, ' ')
    case None => None
    case Some((host, s1)) =>
    match Skip(s1, "- ")
    case None => None
    case Some(s2) =>
    match SplitOnce(s2, ' ')
    case None => None
    case Some((user, s3)) =>
    match Skip(s3, "[")
    case None => None
    case Some(s4) =>
    match SplitOnce(s4, ']')
    case None => None
    case Some((time, s5)) =>
    match Skip(s5, " \"")
    case None => None
    case Some(s6) =>
    match ReadQuoted(s6)
    case None => None
    case Some((request, s7)) =>
    match ReadTail(s7)
    case None => None
    case Some((status, bytes, referer, ua)) => Some(Fields(host, user, time, request, status, bytes, referer, ua))
  }

  /** Reading one escaped character gives it back. */
  lemma ReadEscaped(c: char, after: string)
    ensures ReadQuoted(EscapeChar(c) + after) ==
            if ReadQuoted(after).None? then None
            else Some(([c] + ReadQuoted(after).value.0, ReadQuoted(after).value.1))
  {
    assert (EscapeChar(c) + after)[|EscapeChar(c)|..] == after;
  }

  lemma {:induction false} ReadBack(s: string, rest: string)
    ensures ReadQuoted(Escape(s) + "\"" + rest) == Some((s, rest))
  {
    if s == "" {
      assert ("" + "\"" + rest)[1..] == rest;
    } else {
      ReadBack(s[1..], rest);
      var after := Escape(s[1..]) + "\"" + rest;
      AppendThree(EscapeChar(s[0]), Escape(s[1..]), "\"", rest);
      ReadEscaped(s[0], after);
      assert s == [s[0]] + s[1..];
    }
  }

  lemma {:induction false} EscapeConcat(a: string, b: string)
    ensures Escape(a + b) == Escape(a) + Escape(b)
  {
    if a == "" {
      assert a + b == b;
    } else {
      assert (a + b)[1..] == a[1..] + b;
      EscapeConcat(a[1..], b);
    }
  }

  lemma {:induction false} EscapePlain(s: string)
    requires '"' !in s && '\\' !in s
    ensures Escape(s) == s
  {
    if s != "" {
      EscapePlain(s[1..]);
      assert s == [s[0]] + s[1..];
    }
  }

  /** A quoted optional field is the escape of the dashed raw value. */
  lemma DashQuoted(s: Option<string>)
    ensures Dash(MapSome(s, ClfQuoted)) == Escape(Dash(s))
  {
    EscapePlain("-");
    if s.Some? {
      QuotedIsEscape(s.value);
    }
  }

  lemma {:induction false} CleanUserIsBare(s: string)
    ensures forall c :: c in CleanUser(s) ==> c in s && !IsControl(c) && c != ' ' && c != '"' && c != '[' && c != ']'
  {
    if s != "" {
      CleanUserIsBare(s[1..]);
    }
  }

  predicate IsDigit(c: char) {
    '0' <= c <= '9'
  }

  function Undecimal(s: string): nat
    requires forall i :: 0 <= i < |s| ==> IsDigit(s[i])
  {
    if s == "" then 0
    else
      assert IsDigit(s[|s| - 1]);
      Undecimal(s[..|s| - 1]) * 10 + (s[|s| - 1] as int - '0' as int)
  }

  lemma {:induction false} DecimalReadsBack(n: nat)
    ensures (forall i :: 0 <= i < |Decimal(n)| ==> IsDigit(Decimal(n)[i])) && Undecimal(Decimal(n)) == n
  {
    if n >= 10 {
      DecimalReadsBack(n / 10);
      assert Decimal(n)[..|Decimal(n)| - 1] == Decimal(n / 10);
    } else {
      assert Decimal(n)[..0] == "";
    }
  }

  /** What the line's own parts must satisfy; nothing is asked of the request-controlled
      target, user, referer and agent. */
  predicate WellFormed(l: Line) {
    && ' ' !in l.host && ']' !in l.time
    && '"' !in l.verb && '\\' !in l.verb && ' ' !in l.verb
    && '"' !in l.proto && '\\' !in l.proto && ' ' !in l.proto
  }

  function RequestOf(l: Line): string {
    l.verb + " " + l.target + " " + l.proto
  }

  function BytesField(l: Line): string {
    if l.bytes.None? then "-" else Decimal(l.bytes.value)
  }

  function UserField(l: Line): string {
    Dash(MapSome(l.authuser, CleanUser))
  }

  lemma BareFields(l: Line)
    ensures ' ' !in Decimal(l.status) && ' ' !in BytesField(l) && ' ' !in UserField(l)
  {
    DecimalReadsBack(l.status);
    if l.bytes.Some? {
      DecimalReadsBack(l.bytes.value);
    }
    if l.authuser.Some? {
      CleanUserIsBare(l.authuser.value);
    }
  }

  lemma RequestEscapes(l: Line)
    requires WellFormed(l)
    ensures Escape(RequestOf(l)) == l.verb + " " + ClfQuoted(l.target) + " " + l.proto
  {
    QuotedIsEscape(l.target);
    EscapePlain(l.verb + " ");
    EscapePlain(" " + l.proto);
    assert RequestOf(l) == (l.verb + " ") + l.target + (" " + l.proto);
    EscapeConcat((l.verb + " ") + l.target, " " + l.proto);
    EscapeConcat(l.verb + " ", l.target);
  }

  /** A line's tail, bracketed the way a reader consumes it. */
  function TailText(status: string, bytes: string, referer: string, ua: string): string {
    var s13 := Escape(ua) + "\"" + "";
    var s11 := Escape(referer) + "\"" + (" \"" + s13);
    var s9 := bytes + " " + ("\"" + s11);
    " " + (status + " " + s9)
  }

  /** A line up to its tail, bracketed the way a reader consumes it. */
  function HeadText(host: string, user: string, time: string, request: string, tail: string): string {
    var s6 := Escape(request) + "\"" + tail;
    var s4 := time + "]" + (" \"" + s6);
    var s2 := user + " " + ("[" + s4);
    host + " " + ("- " + s2)
  }

  lemma TailReadsBack(status: string, bytes: string, referer: string, ua: string)
    requires ' ' !in status && ' ' !in bytes
    ensures ReadTail(TailText(status, bytes, referer, ua)) == Some((status, bytes, referer, ua))
  {
    var s13 := Escape(ua) + "\"" + "";
    var s12 := " \"" + s13;
    var s11 := Escape(referer) + "\"" + s12;
    var s10 := "\"" + s11;
    var s9 := bytes + " " + s10;
    ReadBack(ua, "");
    ReadBack(referer, s12);
    SplitOnceAt(bytes, ' ', s10);
    SplitOnceAt(status, ' ', s9);
    SkipBack(" ", status + " " + s9);
    SkipBack("\"", s11);
    SkipBack(" \"", s13);
  }

  lemma SkipBack(prefix: string, rest: string)
    ensures Skip(prefix + rest, prefix) == Some(rest)
  {
    assert (prefix + rest)[|prefix|..] == rest;
  }

  lemma FieldsReadBack(host: string, user: string, time: string, request: string, status: string, bytes: string,
                       referer: string, ua: string, s7: string)
    requires ' ' !in host && ' ' !in user && ']' !in time && ReadTail(s7) == Some((status, bytes, referer, ua))
    ensures Tokenize(HeadText(host, user, time, request, s7))
            == Some(Fields(host, user, time, request, status, bytes, referer, ua))
  {
    var s6 := Escape(request) + "\"" + s7;
    var s5 := " \"" + s6;
    var s4 := time + "]" + s5;
    var s3 := "[" + s4;
    var s2 := user + " " + s3;
    ReadBack(request, s7);
    SplitOnceAt(time, ']', s5);
    SplitOnceAt(user, ' ', s3);
    SplitOnceAt(host, ' ', "- " + s2);
    SkipBack("- ", s2);
    SkipBack("[", s4);
    SkipBack(" \"", s6);
  }

  /** The printed line is those fields, escaped where quoted. */
  lemma FormatNests(l: Line)
    requires WellFormed(l)
    ensures FormatClf(l) == HeadText(if l.host == "" then "-" else l.host, UserField(l), l.time, RequestOf(l),
                                     TailText(Decimal(l.status), BytesField(l), Dash(l.referer), Dash(l.ua)))
  {
    RequestEscapes(l);
    DashQuoted(l.referer);
    DashQuoted(l.ua);
    var tail := TailText(Decimal(l.status), BytesField(l), Dash(l.referer), Dash(l.ua));
    TailNests(Decimal(l.status), BytesField(l), Dash(l.referer), Dash(l.ua));
    HeadNests(if l.host == "" then "-" else l.host, UserField(l), l.time, RequestOf(l), tail);
  }

  lemma TailNests(status: string, bytes: string, referer: string, ua: string)
    ensures TailText(status, bytes, referer, ua) ==
            " " + status + " " + bytes + " \"" + Escape(referer) + "\" \"" + Escape(ua) + "\""
  {
    var r, u := Escape(referer), Escape(ua);
    var s11 := r + "\"" + (" \"" + (u + "\"" + ""));
    assert u + "\"" + "" == u + "\"";
    Glue(r, "\"", " \"", "\" \"", u + "\"");
    Glue(bytes, " ", "\"", " \"", s11);
    Cat(r + "\" \"", u, "\"");
    AppendThree(" ", status, " ", bytes + " \"" + s11);
    AppendThree(" " + status + " ", bytes, " \"", s11);
    AppendFour(" " + status + " " + bytes + " \"", r, "\" \"", u, "\"");
  }

  lemma Cat(a: string, b: string, c: string)
    ensures a + (b + c) == a + b + c
  {
  }

  /** Two delimiters met one after the other are one. */
  lemma Glue(a: string, b: string, c: string, bc: string, d: string)
    requires b + c == bc
    ensures a + b + (c + d) == a + bc + d
  {
  }

  lemma AppendThree(p: string, a: string, b: string, c: string)
    ensures p + (a + b + c) == p + a + b + c
  {
  }

  lemma AppendFour(p: string, a: string, b: string, c: string, d: string)
    ensures p + (a + b + c + d) == p + a + b + c + d
  {
  }

  lemma HeadNests(host: string, user: string, time: string, request: string, tail: string)
    ensures HeadText(host, user, time, request, tail) ==
            (host + " - " + user + " [" + time + "] \"" + Escape(request) + "\"") + tail
  {
    var s6 := Escape(request) + "\"" + tail;
    var s4 := time + "]" + (" \"" + s6);
    var s2 := user + " " + ("[" + s4);
    Glue(time, "]", " \"", "] \"", s6);
    Glue(user, " ", "[", " [", s4);
    Glue(host, " ", "- ", " - ", s2);
    AppendThree(host + " - ", user, " [", s4);
    AppendThree(host + " - " + user + " [", time, "] \"", s6);
    AppendThree(host + " - " + user + " [" + time + "] \"", Escape(request), "\"", tail);
  }

  /** Whatever the request says, a reader of the printed line finds exactly the intended
      fields, with the quoted values unescaped and absent or empty ones as a dash. */
  lemma LineReadsBack(l: Line)
    requires WellFormed(l)
    ensures var user := if l.authuser.Some? then CleanUser(l.authuser.value) else "";
      Tokenize(FormatClf(l)) ==
        Some(Fields(if l.host == "" then "-" else l.host, if user == "" then "-" else user, l.time,
                    l.verb + " " + l.target + " " + l.proto,
                    Decimal(l.status), if l.bytes.Some? then Decimal(l.bytes.value) else "-",
                    if l.referer.Some? && l.referer.value != "" then l.referer.value else "-",
                    if l.ua.Some? && l.ua.value != "" then l.ua.value else "-"))
  {
    BareFields(l);
    FormatNests(l);
    TailReadsBack(Decimal(l.status), BytesField(l), Dash(l.referer), Dash(l.ua));
    FieldsReadBack(if l.host == "" then "-" else l.host, UserField(l), l.time, RequestOf(l),
                   Decimal(l.status), BytesField(l), Dash(l.referer), Dash(l.ua),
                   TailText(Decimal(l.status), BytesField(l), Dash(l.referer), Dash(l.ua)));
  }

  /** The last `c` of a string, and the parts around it. */
  function SplitLast(s: string, c: char): Option<(string, string)> {
    if s == "" then None
    else if s[|s| - 1] == c then Some((s[..|s| - 1], ""))
    else
      match SplitLast(s[..|s| - 1], c)
      case None => None
      case Some((a, b)) => Some((a, b + [s[|s| - 1]]))
  }

  lemma {:induction false} SplitLastAt(a: string, c: char, b: string)
    requires c !in b
    ensures SplitLast(a + [c] + b, c) == Some((a, b))
  {
    var s := a + [c] + b;
    if b == "" {
      assert s[..|s| - 1] == a;
    } else {
      assert s[..|s| - 1] == a + [c] + b[..|b| - 1];
      SplitLastAt(a, c, b[..|b| - 1]);
      assert b == b[..|b| - 1] + [b[|b| - 1]];
    }
  }

  /** The request field splits back into verb, target and protocol: at its first and last
      spaces, so even a target with spaces in it comes back whole. */
  lemma RequestSplitsBack(l: Line)
    requires WellFormed(l)
    ensures SplitOnce(RequestOf(l), ' ') == Some((l.verb, l.target + " " + l.proto))
    ensures SplitLast(l.target + " " + l.proto, ' ') == Some((l.target, l.proto))
  {
    assert RequestOf(l) == l.verb + [' '] + (l.target + " " + l.proto);
    SplitOnceAt(l.verb, ' ', l.target + " " + l.proto);
    assert l.target + " " + l.proto == l.target + [' '] + l.proto;
    SplitLastAt(l.target, ' ', l.proto);
  }

  lemma {:induction false} EscapeKeepsOut(s: string, c: char)
    requires c !in s && c != '\\' && c != '"'
    ensures c !in ClfQuoted(s)
  {
    QuotedIsEscape(s);
    EscapeCharsOut(s, c);
  }

  lemma {:induction false} EscapeCharsOut(s: string, c: char)
    requires c !in s && c != '\\' && c != '"'
    ensures c !in Escape(s)
  {
    if s != "" {
      EscapeCharsOut(s[1..], c);
    }
  }

  predicate Lacks(s: Option<string>, c: char) {
    s.Some? ==> c !in s.value
  }

  lemma HeadKeepsOut(c: char, host: string, user: string, time: string, request: string)
    requires IsControl(c) && c !in host && c !in user && c !in time && c !in request
    ensures c !in host + " - " + user + " [" + time + "] \"" + request + "\""
  {
  }

  lemma RequestKeepsOut(c: char, verb: string, target: string, proto: string)
    requires IsControl(c) && c !in verb && c !in target && c !in proto
    ensures c !in verb + " " + target + " " + proto
  {
  }

  lemma TailKeepsOut(c: char, status: string, bytes: string, referer: string, ua: string)
    requires IsControl(c) && c !in status && c !in bytes && c !in referer && c !in ua
    ensures c !in " " + status + " " + bytes + " \"" + referer + "\" \"" + ua + "\""
  {
  }

  lemma DashKeepsOut(s: Option<string>, c: char)
    requires IsControl(c) && Lacks(s, c)
    ensures c !in Dash(MapSome(s, ClfQuoted))
  {
    if s.Some? {
      EscapeKeepsOut(s.value, c);
    }
  }

  lemma DigitsKeepOut(n: nat, c: char)
    requires IsControl(c)
    ensures c !in Decimal(n)
  {
    DecimalReadsBack(n);
  }

  /** No user name, whatever it decodes to, can put a control character (a line break
      above all) into the log. */
  lemma UserForgesNoLine(l: Line, c: char)
    requires IsControl(c) && Lacks(l.referer, c) && Lacks(l.ua, c)
    requires c !in l.host && c !in l.time && c !in l.verb && c !in l.target && c !in l.proto
    ensures c !in FormatClf(l)
  {
    DigitsKeepOut(l.status, c);
    if l.bytes.Some? {
      DigitsKeepOut(l.bytes.value, c);
    }
    if l.authuser.Some? {
      CleanUserIsBare(l.authuser.value);
    }
    EscapeKeepsOut(l.target, c);
    DashKeepsOut(l.referer, c);
    DashKeepsOut(l.ua, c);
    var request := l.verb + " " + ClfQuoted(l.target) + " " + l.proto;
    RequestKeepsOut(c, l.verb, ClfQuoted(l.target), l.proto);
    HeadKeepsOut(c, if l.host == "" then "-" else l.host, UserField(l), l.time, request);
    TailKeepsOut(c, Decimal(l.status), BytesField(l), Dash(MapSome(l.referer, ClfQuoted)),
                 Dash(MapSome(l.ua, ClfQuoted)));
  }

  lemma {:induction false} CleanConcat(a: string, b: string)
    ensures CleanUser(a + b) == CleanUser(a) + CleanUser(b)
  {
    if a == "" {
      assert a + b == b;
    } else {
      assert (a + b)[1..] == a[1..] + b;
      CleanConcat(a[1..], b);
    }
  }

  /** Neither a control character (C0, delete, C1) nor a delimiter of the line. */
  predicate MayName(c: char) {
    ('!' <= c <= '~' || c >= '\U{A0}') && c != '"' && c != '[' && c != ']'
  }

  /** A user name loses a character exactly when it is one of those, and keeps the others in
      order. */
  lemma CleanDropsOnly(a: string, c: char, b: string)
    ensures CleanUser(a + [c] + b) == CleanUser(a) + (if MayName(c) then [c] else []) + CleanUser(b)
    ensures CleanUser("") == ""
  {
    CleanConcat(a + [c], b);
    CleanConcat(a, [c]);
    CleanOne(c);
  }

  lemma CleanOne(c: char)
    ensures CleanUser([c]) == if MayName(c) then [c] else []
  {
    assert [c][1..] == "";
    assert CleanUser([c][1..]) == "";
  }
}
