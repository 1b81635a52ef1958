/** What a mail reader makes of a message: header fields and body, sections 2.2 and 2.2.3 of
    RFC 2822. Used to state that nothing qrelay puts in front of a message changes the fields
    of the message or merges with them. */
module HeaderText {
  import opened Base

  const CRLF := "\r\n"

  predicate StartsFolded(s: string) {
    s != "" && (s[0] == ' ' || s[0] == '\t')
  }

  /** The text up to the first CRLF, and what follows it, if there is one. */
  function Break(s: string): (r: (string, Option<string>))
    ensures r.1.Some? ==> |r.0| + 2 + |r.1.value| == |s|
    ensures r.1.None? ==> r.0 == s
  {
    if |s| < 2 then (s, None)
    else if s[..2] == CRLF then ("", Some(s[2..]))
    else var (line, rest) := Break(s[1..]); ([s[0]] + line, rest)
  }

  /** Takes folded continuation lines into `line`, removing the CRLF in front of each. */
  function Unfold(line: string, rest: Option<string>): (r: (string, Option<string>))
    ensures rest.Some? && r.1.Some? ==> |r.1.value| <= |rest.value|
    ensures rest.None? ==> r.1.None?
    decreases if rest.Some? then |rest.value| else 0
  {
    if rest.Some? && StartsFolded(rest.value)
    then var (more, after) := Break(rest.value); Unfold(line + more, after)
    else (line, rest)
  }

  /** Unfolded header fields in order, and the body if an empty line ends the header section. */
  datatype Message = Message(fields: seq<string>, body: Option<string>)

  function Read(s: string): Message
    decreases |s|
  {
    if s == "" then Message([], None)
    else
      var (line, rest) := Break(s);
      if line == "" then Message([], rest)
      else
        var (field, after) := Unfold(line, rest);
        match after
        case None => Message([field], None)
        case Some(next) => var m := Read(next); Message([field] + m.fields, m.body)
  }

  /** Field name and value, split at the first colon. */
  function SplitField(field: string): (string, string) {
    var i := IndexOfColon(field);
    if i == |field| then (field, "") else (field[..i], field[i + 1..])
  }

  function IndexOfColon(s: string): (i: nat)
    ensures i <= |s|
  {
    if s == "" || s[0] == ':' then 0 else 1 + IndexOfColon(s[1..])
  }

  lemma {:induction false} SplitAtName(name: string, value: string)
    requires ':' !in name
    ensures SplitField(name + ":" + value) == (name, value)
  {
    NameColon(name, value);
    var f := name + ":" + value;
    assert f[..|name|] == name && f[|name| + 1..] == value;
  }

  lemma {:induction false} NameColon(name: string, value: string)
    requires ':' !in name
    ensures IndexOfColon(name + ":" + value) == |name|
  {
    if name != "" {
      assert name[0] in name;
      assert (name + ":" + value)[1..] == name[1..] + ":" + value;
      NameColon(name[1..], value);
    }
  }

  // ------------------------------------------------------------ one line in front

  lemma {:induction false} BreakLine(line: string, rest: string)
    requires '\r' !in line
    ensures Break(line + CRLF + rest) == (line, Some(rest))
  {
    var s := line + CRLF + rest;
    if line == "" {
      assert s[..2] == CRLF && s[2..] == rest;
    } else {
      assert s[0] in line && s[..2][0] == s[0] && CRLF[0] == '\r';
      assert s[1..] == line[1..] + CRLF + rest;
      BreakLine(line[1..], rest);
      assert [s[0]] + line[1..] == line;
    }
  }

  /** A complete line in front of a message is one field more, and changes nothing else, exactly
      when the message does not start like a continuation line. */
  lemma {:induction false} ReadLineIff(line: string, rest: string)
    requires line != "" && '\r' !in line
    ensures Read(line + CRLF + rest) == InFront([line], Read(rest))
       <==> !StartsFolded(rest)
  {
    BreakLine(line, rest);
    if StartsFolded(rest) {
      var (more, after) := Break(rest);
      assert more != "";
      UnfoldGrows(line + more, after);
      assert |Read(line + CRLF + rest).fields[0]| > |line|;
    }
  }

  lemma {:induction false} UnfoldGrows(line: string, rest: Option<string>)
    ensures |Unfold(line, rest).0| >= |line|
    decreases if rest.Some? then |rest.value| else 0
  {
    if rest.Some? && StartsFolded(rest.value) {
      var (more, after) := Break(rest.value);
      UnfoldGrows(line + more, after);
    }
  }

  // ------------------------------------------------------------ several lines in front

  function JoinLines(lines: seq<string>): string {
    if lines == [] then "" else lines[0] + CRLF + JoinLines(lines[1..])
  }

  predicate PlainLine(line: string) {
    line != "" && '\r' !in line && !StartsFolded(line)
  }

  /** `m` with `fields` in front. */
  function InFront(fields: seq<string>, m: Message): Message {
    Message(fields + m.fields, m.body)
  }

  lemma InFrontTwice(line: string, lines: seq<string>, m: Message)
    ensures InFront([line], InFront(lines, m)) == InFront([line] + lines, m)
  {
    assert [line] + (lines + m.fields) == [line] + lines + m.fields;
  }

  lemma SplitFirstLine(lines: seq<string>, rest: string)
    requires lines != []
    ensures JoinLines(lines) + rest == lines[0] + CRLF + (JoinLines(lines[1..]) + rest)
    ensures lines == [lines[0]] + lines[1..]
  {
  }

  lemma {:induction false} ReadLines(lines: seq<string>, rest: string)
    requires forall l :: l in lines ==> PlainLine(l)
    requires !StartsFolded(rest)
    ensures Read(JoinLines(lines) + rest) == InFront(lines, Read(rest))
  {
    if lines == [] {
      assert JoinLines(lines) + rest == rest;
    } else {
      assert PlainLine(lines[0]);
      ReadLines(lines[1..], rest);
      NextLineNotFolded(lines[1..], rest);
      SplitFirstLine(lines, rest);
      ReadLineIff(lines[0], JoinLines(lines[1..]) + rest);
      InFrontTwice(lines[0], lines[1..], Read(rest));
    }
  }

  lemma NextLineNotFolded(lines: seq<string>, rest: string)
    requires forall l :: l in lines ==> PlainLine(l)
    requires !StartsFolded(rest)
    ensures !StartsFolded(JoinLines(lines) + rest)
  {
    if lines == [] {
      assert JoinLines(lines) + rest == rest;
    } else {
      assert PlainLine(lines[0]);
      assert (JoinLines(lines) + rest)[0] == lines[0][0];
    }
  }

  // ------------------------------------------------------------ the whitespace strip

  /** What is known of the whitespace set of `StripLeft`. */
  predicate IsWhitespaceSet(ws: char -> bool) {
    && ws(' ') && ws('\t') && ws('\r') && ws('\n')
    && forall c: char :: 33 <= c as int <= 126 ==> !ws(c)
  }

  function StripLeft(ws: char -> bool, s: string): (r: string)
    ensures r != "" ==> !ws(r[0])
    ensures |r| <= |s| && s[|s| - |r|..] == r
    ensures forall i :: 0 <= i < |s| - |r| ==> ws(s[i])
  {
    if s != "" && ws(s[0]) then StripLeft(ws, s[1..]) else s
  }

  lemma StripFixed(ws: char -> bool, s: string)
    ensures StripLeft(ws, s) == s <==> s == "" || !ws(s[0])
  {
  }

  lemma {:induction false} FirstFieldStart(s: string)
    requires s != ""
    ensures var m := Read(s);
            if |s| >= 2 && s[..2] == CRLF then m.fields == [] && m.body == Some(s[2..])
            else |m.fields| > 0 && m.fields[0] != "" && m.fields[0][0] == s[0]
  {
    var (line, rest) := Break(s);
    if line != "" {
      assert line[0] == s[0];
      UnfoldStart(line, rest);
    }
  }

  lemma {:induction false} UnfoldStart(line: string, rest: Option<string>)
    requires line != ""
    ensures Unfold(line, rest).0 != "" && Unfold(line, rest).0[0] == line[0]
    decreases if rest.Some? then |rest.value| else 0
  {
    if rest.Some? && StartsFolded(rest.value) {
      var (more, after) := Break(rest.value);
      UnfoldStart(line + more, after);
    }
  }

  /** The strip keeps the meaning of exactly the messages without leading whitespace: it turns,
      for instance, the body of a message without header fields into fields. */
  lemma {:induction false} StripTransparentIff(ws: char -> bool, s: string)
    requires IsWhitespaceSet(ws)
    ensures Read(StripLeft(ws, s)) == Read(s) <==> s == "" || !ws(s[0])
  {
    StripFixed(ws, s);
    var t := StripLeft(ws, s);
    if s != "" && ws(s[0]) {
      FirstFieldStart(s);
      if t != "" {
        FirstFieldStart(t);
        assert t[0] != '\r';
      }
    }
  }
}
