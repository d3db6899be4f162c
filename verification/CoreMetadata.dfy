/** The folded-header parser for Python core metadata. */
module CoreMetadata {
  import opened Prelude
  import opened Text

  /** The first line of non-empty text, its terminator included, and the rest
      (`split_inclusive('\n')`, one line at a time). */
  function NextLine(text: string): (r: (string, string))
    requires text != ""
    ensures r.0 != "" && r.0 + r.1 == text
  {
    if text[0] == '\n' || |text| == 1 then (text[..1], text[1..])
    else
      var (line, rest) := NextLine(text[1..]);
      ([text[0]] + line, rest)
  }

  /** `line` without trailing carriage returns and line feeds. */
  function TrimEol(line: string): string {
    if line != "" && (line[|line| - 1] == '\r' || line[|line| - 1] == '\n') then TrimEol(line[..|line| - 1]) else line
  }

  type Headers = seq<(string, string)>

  /** Take one non-blank line into the headers: a folded continuation extends the last
      value, a `key: value` line adds a header, anything else is ignored. */
  function TakeLine(headers: Headers, line: string): Headers
    requires line != ""
  {
    var content := TrimEol(line);
    if line[0] == ' ' || line[0] == '\t' then
      if headers == [] then []
      else
        var (k, v) := headers[|headers| - 1];
        headers[..|headers| - 1] + [(k, v + "\n" + TrimStart(content))]
    else
      match SplitOnce(content, ':')
      case None => headers
      case Some((k, v)) => headers + [(Trim(k), TrimStart(v))]
  }

  /** Headers up to the first blank line, and everything after it. */
  function SplitFrom(text: string, headers: Headers): (Headers, string)
    decreases |text|
  {
    if text == "" then (headers, "")
    else
      var (line, rest) := NextLine(text);
      assert |line| + |rest| == |text|;
      if TrimEol(line) == "" then (headers, rest) else SplitFrom(rest, TakeLine(headers, line))
  }

  method SplitHeadersBody(text: string) returns (headers: Headers, body: string)
    ensures (headers, body) == SplitFrom(text, [])
  {
    headers := [];
    var offset := 0;
    ghost var ahead := text;
    while offset < |text|
      invariant 0 <= offset <= |text| && ahead == text[offset..]
      invariant SplitFrom(text, []) == SplitFrom(ahead, headers)
    {
      var (line, rest) := NextLine(text[offset..]);
      SplitStep(ahead, headers, line, rest);
      RestOf(text, offset, line, rest);
      offset := offset + |line|;
      ahead := rest;
      if TrimEol(line) == "" {
        return headers, text[offset..];
      }
      headers := Take(headers, line);
    }
    body := "";
  }

  method Take(headers: Headers, line: string) returns (headers': Headers)
    requires line != ""
    ensures headers' == TakeLine(headers, line)
  {
    headers' := headers;
    var content := TrimEol(line);
    if line[0] == ' ' || line[0] == '\t' {
      if headers != [] {
        var last := |headers| - 1;
        headers' := headers[..last] + [(headers[last].0, headers[last].1 + "\n" + TrimStart(content))];
      }
    } else {
      var kv := SplitOnce(content, ':');
      if kv.Some? {
        headers' := headers + [(Trim(kv.value.0), TrimStart(kv.value.1))];
      }
    }
  }

  lemma SplitStep(text: string, headers: Headers, line: string, rest: string)
    requires text != "" && (line, rest) == NextLine(text)
    ensures SplitFrom(text, headers)
         == if TrimEol(line) == "" then (headers, rest) else SplitFrom(rest, TakeLine(headers, line))
  {
  }

  lemma RestOf(text: string, offset: nat, line: string, rest: string)
    requires offset <= |text| && text[offset..] == line + rest
    ensures offset + |line| <= |text| && rest == text[offset + |line|..]
  {
    assert (line + rest)[|line|..] == rest;
  }

  // ----- Printing --------------------------------------------------------------------------------

  /** A continuation line: what it is indented with, and its text. */
  datatype Fold = Fold(pad: string, line: string)

  /** A header whose value is folded over one or more lines, with whatever white space stands
      around its colon; or a line that is no header, which a reader passes over. */
  datatype Item =
    | Field(key: string, keyPad: string, pad: string, first: string, more: seq<Fold>)
    | Noise(line: string)

  /** White space within a line. */
  ghost predicate IsPad(pad: string) {
    AllSpace(pad) && '\n' !in pad && '\r' !in pad
  }

  predicate PrintableKey(key: string) {
    && ':' !in key && '\n' !in key
    && (key != "" ==> !IsSpace(key[0]) && !IsSpace(key[|key| - 1]))
  }

  /** No line feed, no leading white space, no trailing carriage return. */
  predicate PrintableLine(line: string) {
    '\n' !in line && (line != "" ==> !IsSpace(line[0]) && line[|line| - 1] != '\r')
  }

  ghost predicate PrintableFold(f: Fold) {
    IsPad(f.pad) && f.pad != "" && (f.pad[0] == ' ' || f.pad[0] == '\t') && PrintableLine(f.line)
  }

  ghost predicate PrintableFolds(more: seq<Fold>) {
    forall i :: 0 <= i < |more| ==> PrintableFold(more[i])
  }

  ghost predicate Printable(item: Item) {
    match item
    case Field(key, keyPad, pad, first, more) =>
      && PrintableKey(key) && IsPad(keyPad) && (key == "" ==> keyPad == "") && IsPad(pad)
      && PrintableLine(first) && PrintableFolds(more)
    case Noise(line) => PrintableLine(line) && line != "" && ':' !in line
  }

  ghost predicate AllPrintable(items: seq<Item>) {
    forall i :: 0 <= i < |items| ==> Printable(items[i])
  }

  predicate IsEol(eol: string) {
    eol == "\n" || eol == "\r\n"
  }

  function PrintMore(more: seq<Fold>, eol: string): string {
    if more == [] then "" else more[0].pad + more[0].line + eol + PrintMore(more[1..], eol)
  }

  function PrintItem(item: Item, eol: string): string {
    match item
    case Field(key, keyPad, pad, first, more) => key + keyPad + ":" + pad + first + eol + PrintMore(more, eol)
    case Noise(line) => line + eol
  }

  function PrintItems(items: seq<Item>, eol: string): string {
    if items == [] then "" else PrintItem(items[0], eol) + PrintItems(items[1..], eol)
  }

  /** The value a folded header stands for: its lines, joined by line feeds. */
  function Unfold(first: string, more: seq<Fold>): string
    decreases more
  {
    if more == [] then first else Unfold(first + "\n" + more[0].line, more[1..])
  }

  function ValueOf(item: Item): Headers {
    if item.Field? then [(item.key, Unfold(item.first, item.more))] else []
  }

  function Values(items: seq<Item>): Headers {
    if items == [] then [] else ValueOf(items[0]) + Values(items[1..])
  }

  // ----- One printed line --------------------------------------------------------------------------

  lemma {:induction false} NextLineAt(content: string, eol: string, rest: string)
    requires '\n' !in content && IsEol(eol)
    ensures NextLine(content + eol + rest) == (content + eol, rest)
  {
    var text := content + eol + rest;
    if content == "" {
      if eol == "\r\n" {
        assert text[1..] == "\n" + rest;
        assert text[1..][1..] == rest;
      } else {
        assert text[1..] == rest;
      }
    } else {
      assert text[1..] == content[1..] + eol + rest;
      NextLineAt(content[1..], eol, rest);
      assert content + eol == [content[0]] + (content[1..] + eol);
    }
  }

  lemma TrimEolAt(content: string, eol: string)
    requires IsEol(eol) && (content != "" ==> content[|content| - 1] != '\r' && content[|content| - 1] != '\n')
    ensures TrimEol(content + eol) == content
  {
    if eol == "\r\n" {
      assert content + eol == content + "\r" + "\n";
      TrimOne(content + "\r", '\n');
      TrimOne(content, '\r');
    } else {
      TrimOne(content, '\n');
    }
  }

  lemma TrimOne(content: string, c: char)
    requires c == '\r' || c == '\n'
    ensures TrimEol(content + [c]) == TrimEol(content)
  {
    assert (content + [c])[..|content|] == content;
  }

  /** Reading one printed content line takes exactly that line into the headers. */
  lemma ReadLine(content: string, eol: string, rest: string, headers: Headers)
    requires IsEol(eol) && '\n' !in content && content != "" && content[|content| - 1] != '\r'
    ensures SplitFrom(content + eol + rest, headers) == SplitFrom(rest, TakeLine(headers, content + eol))
  {
    NextLineAt(content, eol, rest);
    assert content[|content| - 1] in content;
    TrimEolAt(content, eol);
  }

  lemma {:induction false} ReadMore(more: seq<Fold>, eol: string, rest: string, headers: Headers, key: string,
                                    value: string)
    requires IsEol(eol) && PrintableFolds(more)
    ensures SplitFrom(PrintMore(more, eol) + rest, headers + [(key, value)])
         == SplitFrom(rest, headers + [(key, Unfold(value, more))])
    decreases more
  {
    if more == [] {
      assert PrintMore(more, eol) + rest == rest;
    } else {
      var value' := value + "\n" + more[0].line;
      PrintMoreStep(more, eol, rest);
      ReadContinuation(more[0], eol, PrintMore(more[1..], eol) + rest, headers, key, value);
      ReadMore(more[1..], eol, rest, headers, key, value');
      UnfoldStep(value, more);
    }
  }

  lemma UnfoldStep(value: string, more: seq<Fold>)
    requires more != []
    ensures Unfold(value, more) == Unfold(value + "\n" + more[0].line, more[1..])
  {
  }

  lemma PrintMoreStep(more: seq<Fold>, eol: string, rest: string)
    requires more != []
    ensures PrintMore(more, eol) + rest == more[0].pad + more[0].line + eol + (PrintMore(more[1..], eol) + rest)
  {
    Regroup(more[0].pad + more[0].line + eol, PrintMore(more[1..], eol), rest);
  }

  /** A continuation line extends the last value. */
  lemma ReadContinuation(f: Fold, eol: string, rest: string, headers: Headers, key: string, value: string)
    requires IsEol(eol) && PrintableFold(f)
    ensures SplitFrom(f.pad + f.line + eol + rest, headers + [(key, value)])
         == SplitFrom(rest, headers + [(key, value + "\n" + f.line)])
  {
    ReadFold(f, eol, rest, headers + [(key, value)]);
    TakeContinuation(headers, key, value, f, eol);
  }

  lemma ReadFold(f: Fold, eol: string, rest: string, headers: Headers)
    requires IsEol(eol) && PrintableFold(f)
    ensures SplitFrom(f.pad + f.line + eol + rest, headers) == SplitFrom(rest, TakeLine(headers, f.pad + f.line + eol))
  {
    PadEnds(f.pad, f.line);
    ReadLine(f.pad + f.line, eol, rest, headers);
  }

  /** A padded line ends in no carriage return or line feed. */
  lemma PadEnds(pad: string, line: string)
    requires IsPad(pad) && PrintableLine(line)
    ensures '\n' !in pad + line
    ensures pad + line != "" ==> (pad + line)[|pad + line| - 1] != '\r' && (pad + line)[|pad + line| - 1] != '\n'
  {
    var all := pad + line;
    if all != "" {
      assert all[|all| - 1] == if line != "" then line[|line| - 1] else pad[|pad| - 1];
      assert all[|all| - 1] in all;
      assert line == "" ==> all[|all| - 1] in pad;
    }
  }

  lemma TakeContinuation(headers: Headers, key: string, value: string, f: Fold, eol: string)
    requires IsEol(eol) && PrintableFold(f)
    ensures TakeLine(headers + [(key, value)], f.pad + f.line + eol) == headers + [(key, value + "\n" + f.line)]
  {
    PadEnds(f.pad, f.line);
    TrimEolAt(f.pad + f.line, eol);
    TrimStartPadded(f.pad, f.line);
    assert (headers + [(key, value)])[..|headers|] == headers;
  }

  /** A continuation with no header to continue is passed over. */
  lemma {:induction false} ReadOrphans(more: seq<Fold>, eol: string, rest: string)
    requires IsEol(eol) && PrintableFolds(more)
    ensures SplitFrom(PrintMore(more, eol) + rest, []) == SplitFrom(rest, [])
    decreases more
  {
    if more == [] {
      assert PrintMore(more, eol) + rest == rest;
    } else {
      var after := PrintMore(more[1..], eol) + rest;
      ReadFold(more[0], eol, after, []);
      PrintMoreStep(more, eol, rest);
      ReadOrphans(more[1..], eol, rest);
    }
  }

  /** The header line of a field, without its line ending. */
  function FieldLine(item: Item): string
    requires item.Field?
  {
    item.key + item.keyPad + ":" + item.pad + item.first
  }

  lemma FieldLineEnds(item: Item)
    requires item.Field? && Printable(item)
    ensures var line := FieldLine(item);
      && line != "" && '\n' !in line && line[|line| - 1] != '\r' && line[|line| - 1] != '\n'
      && line[0] != ' ' && line[0] != '\t'
  {
    PadEnds(item.pad, item.first);
    var line, tail := FieldLine(item), item.pad + item.first;
    assert line == item.key + item.keyPad + ":" + tail;
    assert line[|line| - 1] == if tail != "" then tail[|tail| - 1] else ':';
    assert line[0] == if item.key != "" then item.key[0] else ':';
    assert item.key != "" ==> !IsSpace(item.key[0]);
    assert '\n' !in item.key + item.keyPad + ":";
  }

  lemma TakeField(headers: Headers, item: Item, eol: string)
    requires IsEol(eol) && item.Field? && Printable(item)
    ensures TakeLine(headers, FieldLine(item) + eol) == headers + [(item.key, item.first)]
  {
    var line := FieldLine(item);
    FieldLineEnds(item);
    TrimEolAt(line, eol);
    assert line == (item.key + item.keyPad) + [':'] + (item.pad + item.first);
    ColonFree(item.key, item.keyPad);
    SplitOnceAt(item.key + item.keyPad, ':', item.pad + item.first);
    TrimPadded("", item.key, item.keyPad);
    assert "" + item.key + item.keyPad == item.key + item.keyPad;
    TrimStartPadded(item.pad, item.first);
  }

  lemma ColonFree(key: string, pad: string)
    requires ':' !in key && AllSpace(pad)
    ensures ':' !in key + pad
  {
    assert forall i :: 0 <= i < |pad| ==> IsSpace(pad[i]) && pad[i] != ':';
  }

  lemma ReadItem(item: Item, eol: string, rest: string, headers: Headers)
    requires IsEol(eol) && Printable(item)
    ensures SplitFrom(PrintItem(item, eol) + rest, headers) == SplitFrom(rest, headers + ValueOf(item))
  {
    match item
    case Field(key, _, _, first, more) =>
      var after := PrintMore(more, eol) + rest;
      assert PrintItem(item, eol) + rest == FieldLine(item) + eol + after;
      FieldLineEnds(item);
      ReadLine(FieldLine(item), eol, after, headers);
      TakeField(headers, item, eol);
      ReadMore(more, eol, rest, headers, key, first);
    case Noise(line) =>
      assert line[|line| - 1] in line;
      ReadLine(line, eol, rest, headers);
      TrimEolAt(line, eol);
      SplitOnceIff(line, ':');
      assert headers + [] == headers;
  }

  lemma Regroup<T>(a: seq<T>, b: seq<T>, c: seq<T>)
    ensures a + b + c == a + (b + c)
  {
  }

  lemma {:induction false} ReadItems(items: seq<Item>, eol: string, rest: string, headers: Headers)
    requires IsEol(eol) && AllPrintable(items)
    ensures SplitFrom(PrintItems(items, eol) + rest, headers) == SplitFrom(rest, headers + Values(items))
    decreases items
  {
    if items == [] {
      assert PrintItems(items, eol) + rest == rest && headers + Values(items) == headers;
    } else {
      var after := PrintItems(items[1..], eol) + rest;
      Regroup(PrintItem(items[0], eol), PrintItems(items[1..], eol), rest);
      ReadItem(items[0], eol, after, headers);
      ReadItems(items[1..], eol, rest, headers + ValueOf(items[0]));
      Regroup(headers, ValueOf(items[0]), Values(items[1..]));
    }
  }

  /** A document of continuation lines that continue nothing, headers with folded values and
      lines that are no headers, then a blank line and any body: splitting it gives exactly
      the headers in order, with their lines' indentation and the white space around colons
      gone, and the body. */
  lemma SplitInvertsPrint(orphans: seq<Fold>, items: seq<Item>, eol: string, body: string)
    requires IsEol(eol) && PrintableFolds(orphans) && AllPrintable(items)
    ensures SplitFrom(PrintMore(orphans, eol) + (PrintItems(items, eol) + (eol + body)), []) == (Values(items), body)
  {
    var values := Values(items);
    ReadOrphans(orphans, eol, PrintItems(items, eol) + (eol + body));
    ReadItems(items, eol, eol + body, []);
    assert [] + values == values;
    ReadBlank(eol, body, values);
  }

  /** Without a blank line it is all headers and no body. */
  lemma NoBlankLineNoBody(items: seq<Item>, eol: string)
    requires IsEol(eol) && AllPrintable(items)
    ensures SplitFrom(PrintItems(items, eol), []) == (Values(items), "")
  {
    ReadItems(items, eol, "", []);
    assert PrintItems(items, eol) + "" == PrintItems(items, eol) && [] + Values(items) == Values(items);
  }

  /** A blank line ends the headers. */
  lemma ReadBlank(eol: string, body: string, headers: Headers)
    requires IsEol(eol)
    ensures SplitFrom(eol + body, headers) == (headers, body)
  {
    assert "" + eol + body == eol + body && "" + eol == eol;
    NextLineAt("", eol, body);
    TrimEolAt("", eol);
  }

  // ----- Control characters ---------------------------------------------------------------------------

  predicate IsStripped(c: char) {
    (c <= '\U{1F}' || c == '\U{7F}') && c != '\t' && c != '\n' && c != '\r'
  }

  function StripControlChars(text: string): string {
    if text == "" then "" else (if IsStripped(text[0]) then "" else [text[0]]) + StripControlChars(text[1..])
  }

  lemma {:induction false} StripLeavesNone(text: string)
    ensures forall c :: c in StripControlChars(text) ==> c in text && !IsStripped(c)
  {
    if text != "" {
      StripLeavesNone(text[1..]);
    }
  }

  /** Neither a header nor the body holds `c`. */
  predicate Free(r: (Headers, string), c: char) {
    c !in r.1 && forall i :: 0 <= i < |r.0| ==> c !in r.0[i].0 && c !in r.0[i].1
  }

  lemma {:induction false} TrimsKeepOut(s: string, c: char)
    requires c !in s
    ensures c !in TrimStart(s) && c !in TrimEnd(s) && c !in TrimEol(s)
    decreases |s|
  {
    if s != "" {
      TrimsKeepOut(s[1..], c);
      TrimsKeepOut(s[..|s| - 1], c);
    }
  }

  lemma {:induction false} SplitOnceKeepsOut(s: string, at: char, c: char)
    requires c !in s && SplitOnce(s, at).Some?
    ensures c !in SplitOnce(s, at).value.0 && c !in SplitOnce(s, at).value.1
  {
    if s[0] != at {
      SplitOnceKeepsOut(s[1..], at, c);
    }
  }

  lemma TakeLineKeepsOut(headers: Headers, line: string, c: char)
    requires line != "" && c != '\n' && c !in line && Free((headers, ""), c)
    ensures Free((TakeLine(headers, line), ""), c)
  {
    var content := TrimEol(line);
    TrimsKeepOut(line, c);
    TrimsKeepOut(content, c);
    if SplitOnce(content, ':').Some? {
      SplitOnceKeepsOut(content, ':', c);
      var (k, v) := SplitOnce(content, ':').value;
      TrimsKeepOut(k, c);
      TrimsKeepOut(TrimStart(k), c);
      TrimsKeepOut(v, c);
    }
  }

  lemma {:induction false} SplitKeepsOut(text: string, headers: Headers, c: char)
    requires c != '\n' && c !in text && Free((headers, ""), c)
    ensures Free(SplitFrom(text, headers), c)
    decreases |text|
  {
    if text != "" {
      var (line, rest) := NextLine(text);
      assert text == line + rest;
      if TrimEol(line) != "" {
        TakeLineKeepsOut(headers, line, c);
        SplitKeepsOut(rest, TakeLine(headers, line), c);
      }
    }
  }

  /** No control character of the uploaded text (the page cache's sentinel among them)
      reaches any header or the body of the stripped document. */
  lemma NoControlCharSurvives(text: string, c: char)
    requires IsStripped(c)
    ensures Free(SplitFrom(StripControlChars(text), []), c)
  {
    StripLeavesNone(text);
    SplitKeepsOut(StripControlChars(text), [], c);
  }

  lemma {:induction false} StripConcat(a: string, b: string)
    ensures StripControlChars(a + b) == StripControlChars(a) + StripControlChars(b)
  {
    if a == "" {
      assert a + b == b;
    } else {
      assert (a + b)[1..] == a[1..] + b;
      StripConcat(a[1..], b);
    }
  }

  /** Tabs, line feeds, carriage returns and everything that is no ASCII control character. */
  predicate Kept(c: char) {
    c == '\t' || c == '\n' || c == '\r' || (' ' <= c && c != '\U{7F}')
  }

  /** Stripping takes out one character exactly when it is an ASCII control character other
      than those three, and leaves what is around it in order. */
  lemma StripDropsOnly(a: string, c: char, b: string)
    ensures StripControlChars(a + [c] + b)
         == StripControlChars(a) + (if Kept(c) then [c] else []) + StripControlChars(b)
    ensures StripControlChars("") == ""
  {
    StripConcat(a + [c], b);
    StripConcat(a, [c]);
    assert [c][1..] == "";
  }
}
