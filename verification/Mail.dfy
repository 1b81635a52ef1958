/** src/LMail.cxx and src/MutableMail.*: the mail object a Lua handler may edit before it picks
    an action. A handler is an arbitrary sequence of attempted edits; a refused edit raises a
    Lua error, which the script may catch and go on. */
module MailModel {
  import opened Base
  import opened QmqpMailModel

  const MAX_HEADERS := 16

  // ------------------------------------------------------------ header syntax, RFC 2822 section 2.2

  predicate IsHeaderNameChar(c: char) {
    33 <= c as int <= 126 && c != ':'
  }

  predicate IsHeaderName(s: string) {
    s != "" && forall i :: 0 <= i < |s| ==> IsHeaderNameChar(s[i])
  }

  /** Stricter than the RFC: printable characters only. */
  predicate IsHeaderValueChar(c: char) {
    ' ' as int <= c as int <= 126
  }

  predicate IsHeaderValue(s: string) {
    forall i :: 0 <= i < |s| ==> IsHeaderValueChar(s[i])
  }

  function HeaderLine(name: string, value: string): string {
    name + ": " + value + "\r\n"
  }

  // ------------------------------------------------------------ edits as functions

  /** An IncomingMail. `buffer` is the payload the envelope was parsed from. */
  datatype Mail = Mail(
    envelope: Envelope,
    buffer: string,
    headers: seq<string>,
    nHeaders: nat,
    account: string,
    stale: bool)

  datatype Edit =
    | InsertHeader(name: string, value: string)
    | SetSender(address: string)
    | SetAccount(account: Option<string>)

  datatype EditError =
    | ILLEGAL_HEADER_NAME | ILLEGAL_HEADER_VALUE | STALE_OBJECT | TOO_MANY_HEADERS
    | MALFORMED_ADDRESS | EMPTY_ACCOUNT

  function NewMail(envelope: Envelope, buffer: string): Mail {
    Mail(envelope, buffer, [], 0, "", false)
  }

  /** Why an edit is refused, in the order the checks are made. */
  function Refusal(verify: string -> bool, m: Mail, edit: Edit): Option<EditError> {
    match edit
    case InsertHeader(name, value) =>
      if !IsHeaderName(name) then Some(ILLEGAL_HEADER_NAME)
      else if !IsHeaderValue(value) then Some(ILLEGAL_HEADER_VALUE)
      else if m.stale then Some(STALE_OBJECT)
      else if m.nHeaders >= MAX_HEADERS then Some(TOO_MANY_HEADERS) else None
    case SetSender(address) =>
      if m.stale then Some(STALE_OBJECT)
      else if !verify(address) then Some(MALFORMED_ADDRESS) else None
    case SetAccount(account) =>
      if m.stale then Some(STALE_OBJECT)
      else if account == Some("") then Some(EMPTY_ACCOUNT) else None
  }

  function Apply(verify: string -> bool, m: Mail, edit: Edit): Mail {
    if Refusal(verify, m, edit).Some? then m else
    match edit
    case InsertHeader(name, value) => m.(headers := [HeaderLine(name, value)] + m.headers, nHeaders := m.nHeaders + 1)
    case SetSender(address) => m.(envelope := m.envelope.(sender := address))
    case SetAccount(account) => m.(account := if account.None? then "" else account.value)
  }

  function ApplyAll(verify: string -> bool, m: Mail, edits: seq<Edit>): Mail
    decreases |edits|
  {
    if edits == [] then m else ApplyAll(verify, Apply(verify, m, edits[0]), edits[1..])
  }

  // ------------------------------------------------------------ what a handler can achieve

  /** The syntactically valid insertions among `edits`, oldest first. */
  function ValidInsertions(edits: seq<Edit>): seq<(string, string)> {
    if edits == [] then []
    else
      (if edits[0].InsertHeader? && IsHeaderName(edits[0].name) && IsHeaderValue(edits[0].value)
       then [(edits[0].name, edits[0].value)] else [])
      + ValidInsertions(edits[1..])
  }

  function FirstFew(hs: seq<(string, string)>, n: nat): seq<(string, string)> {
    if |hs| <= n then hs else hs[..n]
  }

  /** Header lines of (name, value) pairs given oldest first, as they stand in the mail: newest first. */
  function LinesNewestFirst(hs: seq<(string, string)>): seq<string> {
    if hs == [] then [] else LinesNewestFirst(hs[1..]) + [HeaderLine(hs[0].0, hs[0].1)]
  }

  /** The last verified address assigned, or the original sender. */
  function SenderAfter(verify: string -> bool, sender: string, edits: seq<Edit>): string
    decreases |edits|
  {
    if edits == [] then sender
    else SenderAfter(verify, if edits[0].SetSender? && verify(edits[0].address) then edits[0].address else sender, edits[1..])
  }

  /** The last account assigned (the empty name is refused, nil clears it), or the original one. */
  function AccountAfter(account: string, edits: seq<Edit>): string
    decreases |edits|
  {
    if edits == [] then account
    else
      var e := edits[0];
      AccountAfter(if !e.SetAccount? || e.account == Some("") then account
                   else if e.account.Some? then e.account.value else "", edits[1..])
  }

  /** What `edits` make of `m`. */
  predicate Achieved(verify: string -> bool, m: Mail, edits: seq<Edit>, r: Mail)
    requires m.nHeaders <= 16
  {
    var inserted := FirstFew(ValidInsertions(edits), 16 - m.nHeaders);
    && !r.stale
    && r.headers == LinesNewestFirst(inserted) + m.headers
    && r.nHeaders == m.nHeaders + |inserted|
    && r.envelope == m.envelope.(sender := SenderAfter(verify, m.envelope.sender, edits))
    && r.account == AccountAfter(m.account, edits)
    && r.buffer == m.buffer
  }

  /** Whatever a handler attempts, the mail ends up with the first sixteen valid insertions, newest
      first, in front of whatever was there, the last verified sender and the last good account;
      message, recipients and the parsed buffer are as they came. */
  lemma {:induction false} EditsAchieve(verify: string -> bool, m: Mail, edits: seq<Edit>)
    requires !m.stale && m.nHeaders <= MAX_HEADERS
    ensures Achieved(verify, m, edits, ApplyAll(verify, m, edits))
    decreases |edits|
  {
    if edits != [] {
      var m', r := Apply(verify, m, edits[0]), ApplyAll(verify, m, edits);
      EditsAchieve(verify, m', edits[1..]);
      if edits[0].InsertHeader? {
        InsertionAchieves(verify, m, edits, r);
      } else {
        assert ValidInsertions(edits) == ValidInsertions(edits[1..]);
      }
    }
  }

  lemma InsertionAchieves(verify: string -> bool, m: Mail, edits: seq<Edit>, r: Mail)
    requires edits != [] && edits[0].InsertHeader? && !m.stale && m.nHeaders <= MAX_HEADERS
    requires Achieved(verify, Apply(verify, m, edits[0]), edits[1..], r)
    ensures Achieved(verify, m, edits, r)
  {
    var m', pair, valid := Apply(verify, m, edits[0]), (edits[0].name, edits[0].value), ValidInsertions(edits[1..]);
    var later := FirstFew(valid, MAX_HEADERS - m'.nHeaders);
    if Refusal(verify, m, edits[0]).None? {
      assert ValidInsertions(edits) == [pair] + valid;
      assert FirstFew([pair] + valid, MAX_HEADERS - m.nHeaders) == [pair] + later;
      NewestInFront(pair, later, m.headers);
    } else if Refusal(verify, m, edits[0]) == Some(TOO_MANY_HEADERS) {
      assert FirstFew(ValidInsertions(edits), 0) == [] == later;
    } else {
      assert ValidInsertions(edits) == valid;
    }
  }

  lemma NewestInFront(pair: (string, string), later: seq<(string, string)>, headers: seq<string>)
    ensures LinesNewestFirst(later) + ([HeaderLine(pair.0, pair.1)] + headers) == LinesNewestFirst([pair] + later) + headers
  {
    assert ([pair] + later)[1..] == later;
  }

  /** A verified sender stays verified. */
  lemma {:induction false} SenderStaysVerified(verify: string -> bool, sender: string, edits: seq<Edit>)
    requires verify(sender)
    ensures verify(SenderAfter(verify, sender, edits))
    decreases |edits|
  {
    if edits != [] {
      SenderStaysVerified(verify, if edits[0].SetSender? && verify(edits[0].address) then edits[0].address else sender, edits[1..]);
    }
  }

  lemma {:induction false} InsertionsAreValid(edits: seq<Edit>)
    ensures forall h :: h in ValidInsertions(edits) ==> IsHeaderName(h.0) && IsHeaderValue(h.1)
  {
    if edits != [] {
      InsertionsAreValid(edits[1..]);
    }
  }

  /** A field name: visible ASCII except the colon. */
  predicate IsFieldName(name: string) {
    name != "" && forall c :: c in name ==> 33 <= c as int <= 57 || 59 <= c as int <= 126
  }

  /** Visible ASCII and spaces. */
  predicate IsPrintable(value: string) {
    forall c :: c in value ==> 32 <= c as int <= 126
  }

  lemma HeaderSyntax(s: string)
    ensures IsHeaderName(s) <==> IsFieldName(s)
    ensures IsHeaderValue(s) <==> IsPrintable(s)
  {
    assert forall i :: 0 <= i < |s| ==> s[i] in s;
    assert IsHeaderName(s) ==> forall i :: 0 <= i < |s| ==> IsHeaderNameChar(s[i]);
    assert IsHeaderValue(s) ==> forall i :: 0 <= i < |s| ==> IsHeaderValueChar(s[i]);
  }

  /** Which edits are refused, and why: a bad name first, then a bad value, a closed mail, the limit. */
  lemma RefusalIff(verify: string -> bool, m: Mail, name: string, value: string, address: string, account: Option<string>)
    ensures Refusal(verify, m, InsertHeader(name, value))
         == if !IsFieldName(name) then Some(ILLEGAL_HEADER_NAME)
            else if !IsPrintable(value) then Some(ILLEGAL_HEADER_VALUE)
            else if m.stale then Some(STALE_OBJECT)
            else if m.nHeaders >= 16 then Some(TOO_MANY_HEADERS) else None
    ensures Refusal(verify, m, SetSender(address)) == None <==> !m.stale && verify(address)
    ensures Refusal(verify, m, SetAccount(account)) == None <==> !m.stale && account != Some("")
    ensures m.stale ==> Refusal(verify, m, SetSender(address)) == Refusal(verify, m, SetAccount(account)) == Some(STALE_OBJECT)
    ensures !m.stale && !verify(address) ==> Refusal(verify, m, SetSender(address)) == Some(MALFORMED_ADDRESS)
    ensures !m.stale && account == Some("") ==> Refusal(verify, m, SetAccount(account)) == Some(EMPTY_ACCOUNT)
  {
    HeaderSyntax(name);
    HeaderSyntax(value);
  }

  /** Only valid names and values get into a mail. */
  lemma {:induction false} HeadersAreValid(verify: string -> bool, m: Mail, edits: seq<Edit>, line: string)
    requires line in ApplyAll(verify, m, edits).headers && line !in m.headers
    ensures exists name, value :: IsFieldName(name) && IsPrintable(value) && line == name + ": " + value + "\r\n"
    decreases |edits|
  {
    var m' := Apply(verify, m, edits[0]);
    if line !in m'.headers {
      HeadersAreValid(verify, m', edits[1..], line);
    } else {
      HeaderSyntax(edits[0].name);
      HeaderSyntax(edits[0].value);
      assert line == HeaderLine(edits[0].name, edits[0].value);
    }
  }

  lemma LinesCount(hs: seq<(string, string)>)
    ensures |LinesNewestFirst(hs)| == |hs|
  {
  }

  // ------------------------------------------------------------ the class

  class IncomingMail {
    /** The QmqpMail base object. */
    const base: QmqpMail
    var buffer: string
    var headers: seq<string>
    var nHeaders: nat
    var account: string
    var stale: bool

    constructor (buffer: string)
      ensures fresh(base) && Value() == NewMail(EMPTY, buffer)
    {
      base := new QmqpMail();
      this.buffer, headers, nHeaders, account, stale := buffer, [], 0, "", false;
    }

    function Value(): Mail
      reads this, base
    {
      Mail(base.Fields(), buffer, headers, nHeaders, account, stale)
    }

    method Parse(verify: string -> bool) returns (result: ParseResult)
      requires |buffer| <= SIZE_MAX
      modifies base
      ensures Parsing(result, Value().envelope) == ParseEnvelope(verify, buffer, old(Value().envelope))
      ensures Value() == old(Value()).(envelope := Value().envelope)
    {
      result := base.Parse(verify, buffer);
    }

    /** MutableMail::InsertHeader. */
    method PushHeader(name: string, value: string)
      modifies this`headers
      ensures headers == [HeaderLine(name, value)] + old(headers)
    {
      headers := [name + ": " + value + "\r\n"] + headers;
    }

    /** The Lua method `insert_header`. */
    method InsertHeader(verify: string -> bool, name: string, value: string) returns (error: Option<EditError>)
      modifies this`headers, this`nHeaders
      ensures error == Refusal(verify, old(Value()), Edit.InsertHeader(name, value))
      ensures Value() == Apply(verify, old(Value()), Edit.InsertHeader(name, value))
    {
      if !IsHeaderName(name) {
        return Some(ILLEGAL_HEADER_NAME);
      }
      if !IsHeaderValue(value) {
        return Some(ILLEGAL_HEADER_VALUE);
      }
      if stale {
        return Some(STALE_OBJECT);
      }
      if nHeaders >= MAX_HEADERS {
        return Some(TOO_MANY_HEADERS);
      }
      nHeaders := nHeaders + 1;
      PushHeader(name, value);
      return None;
    }

    /** Assignment to the Lua attribute `sender`. */
    method SetSender(verify: string -> bool, address: string) returns (error: Option<EditError>)
      modifies base
      ensures error == Refusal(verify, old(Value()), Edit.SetSender(address))
      ensures Value() == Apply(verify, old(Value()), Edit.SetSender(address))
    {
      if stale {
        return Some(STALE_OBJECT);
      }
      if !verify(address) {
        return Some(MALFORMED_ADDRESS);
      }
      base.sender := address;
      return None;
    }

    /** Assignment to the Lua attribute `account`; `None` is nil. */
    method SetAccount(verify: string -> bool, name: Option<string>) returns (error: Option<EditError>)
      modifies this`account
      ensures error == Refusal(verify, old(Value()), Edit.SetAccount(name))
      ensures Value() == Apply(verify, old(Value()), Edit.SetAccount(name))
    {
      if stale {
        return Some(STALE_OBJECT);
      }
      if name == Some("") {
        return Some(EMPTY_ACCOUNT);
      }
      account := if name.None? then "" else name.value;
      return None;
    }

    /** `__close`: free everything; from now on every valid edit is refused as stale. */
    method Close()
      modifies this, base
      ensures Value() == NewMail(EMPTY, "").(nHeaders := old(nHeaders), stale := true)
    {
      stale := true;
      base.message, base.tail, base.sender, base.recipients := "", "", "", [];
      buffer, headers, account := "", [], "";
    }
  }
}
