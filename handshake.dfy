/** The `101 Switching Protocols` response the relay writes to a browser's
    upgrade socket: a status line, one `name: value` field line per header and
    an empty line, each ended by CRLF (the message format of section 2.1 of
    RFC 9112, the 101 status of section 15.2.2 of RFC 9110). */
module Handshake {
  import opened Core

  const StatusLine: string := "HTTP/1.1 101 Switching Protocols\r\n"
  const Crlf: string := "\r\n"

  function FieldLine(name: string, value: string): string {
    name + ": " + value + Crlf
  }

  function FieldLines(h: Fields): string {
    if h == [] then "" else FieldLine(h[0].0, h[0].1) + FieldLines(h[1..])
  }

  /** The whole response for the headers of a `ws_upgrade_success`. */
  function UpgradeResponse(h: Fields): string {
    StatusLine + FieldLines(h) + Crlf
  }

  lemma {:induction false} FieldLinesAppend(h: Fields, name: string, value: string)
    ensures FieldLines(h + [(name, value)]) == FieldLines(h) + FieldLine(name, value)
    decreases |h|
  {
    if h == [] {
      assert [(name, value)][1..] == [];
    } else {
      assert (h + [(name, value)])[1..] == h[1..] + [(name, value)];
      FieldLinesAppend(h[1..], name, value);
    }
  }

  /** The `let response = ...; response += ...` loop. */
  method BuildUpgradeResponse(h: Fields) returns (response: string)
    ensures response == UpgradeResponse(h)
  {
    response := StatusLine;
    var i := 0;
    while i < |h|
      invariant 0 <= i <= |h|
      invariant response == StatusLine + FieldLines(h[..i])
    {
      FieldLinesAppend(h[..i], h[i].0, h[i].1);
      assert h[..i + 1] == h[..i] + [h[i]];
      response := response + FieldLine(h[i].0, h[i].1);
      i := i + 1;
    }
    assert h[..|h|] == h;
    response := response + Crlf;
  }

  // What a browser reads back from the socket.

  predicate NoLineBreak(s: string) {
    forall i :: 0 <= i < |s| ==> s[i] != '\r' && s[i] != '\n'
  }

  /** Field names are tokens (section 5.1 of RFC 9110), so they hold no colon
      and no line break; field values hold no line break (section 5.5). */
  predicate WellFormed(h: Fields) {
    forall i :: 0 <= i < |h| ==> NoLineBreak(h[i].0) && NoLineBreak(h[i].1) && ':' !in h[i].0
  }

  /** The first CRLF-terminated line of `s` and what follows it. */
  function SplitLine(s: string): (r: Option<(string, string)>)
    ensures r.Some? ==> s == r.value.0 + Crlf + r.value.1
    decreases |s|
  {
    if |s| < 2 then None
    else if s[0] == '\r' && s[1] == '\n' then Some(("", s[2..]))
    else match SplitLine(s[1..])
      case None => None
      case Some((line, rest)) => Some(([s[0]] + line, rest))
  }

  /** A field line split at its first colon, which must be followed by a space. */
  function SplitField(line: string): (r: Option<(string, string)>)
    ensures r.Some? ==> line == r.value.0 + ": " + r.value.1 && ':' !in r.value.0
  {
    if line == [] then None
    else if line[0] == ':' then
      if |line| >= 2 && line[1] == ' ' then Some(("", line[2..])) else None
    else match SplitField(line[1..])
      case None => None
      case Some((name, value)) => Some(([line[0]] + name, value))
  }

  /** The field lines up to and including the empty line that ends them. */
  function ParseFields(s: string): Option<Fields>
    decreases |s|
  {
    match SplitLine(s)
    case None => None
    case Some((line, rest)) =>
      if line == "" then (if rest == "" then Some([]) else None)
      else match SplitField(line)
        case None => None
        case Some(field) =>
          match ParseFields(rest)
          case None => None
          case Some(fields) => Some([field] + fields)
  }

  function ParseUpgradeResponse(s: string): Option<Fields> {
    if StatusLine <= s then ParseFields(s[|StatusLine|..]) else None
  }

  lemma {:induction false} SplitLineOf(line: string, rest: string)
    requires NoLineBreak(line)
    ensures SplitLine(line + Crlf + rest) == Some((line, rest))
    decreases |line|
  {
    var s := line + Crlf + rest;
    if line == [] {
      assert s[2..] == rest;
    } else {
      assert s[1..] == line[1..] + Crlf + rest;
      SplitLineOf(line[1..], rest);
      assert [line[0]] + line[1..] == line;
    }
  }

  lemma {:induction false} SplitFieldOf(name: string, value: string)
    requires ':' !in name
    ensures SplitField(name + ": " + value) == Some((name, value))
    decreases |name|
  {
    var line := name + ": " + value;
    if name == [] {
      assert line[2..] == value;
    } else {
      assert line[0] == name[0];
      assert line[1..] == name[1..] + ": " + value;
      SplitFieldOf(name[1..], value);
      assert [name[0]] + name[1..] == name;
    }
  }

  lemma {:induction false} ParseFieldLines(h: Fields)
    requires WellFormed(h)
    ensures ParseFields(FieldLines(h) + Crlf) == Some(h)
    decreases |h|
  {
    if h == [] {
      SplitLineOf("", "");
    } else {
      var line := h[0].0 + ": " + h[0].1;
      assert NoLineBreak(line) by {
        assert forall i :: 0 <= i < |line| ==>
          line[i] == (if i < |h[0].0| then h[0].0[i] else if i < |h[0].0| + 2 then ": "[i - |h[0].0|]
                      else h[0].1[i - |h[0].0| - 2]);
      }
      var rest := FieldLines(h[1..]) + Crlf;
      assert FieldLines(h) + Crlf == line + Crlf + rest;
      SplitLineOf(line, rest);
      SplitFieldOf(h[0].0, h[0].1);
      assert WellFormed(h[1..]) by {
        forall i | 0 <= i < |h[1..]| ensures NoLineBreak(h[1..][i].0) && NoLineBreak(h[1..][i].1) && ':' !in h[1..][i].0 {
          assert h[1..][i] == h[i + 1];
        }
      }
      ParseFieldLines(h[1..]);
      assert [h[0]] + h[1..] == h;
    }
  }

  /** Reading the response back recovers the headers, in order. */
  lemma UpgradeResponseRoundTrip(h: Fields)
    requires WellFormed(h)
    ensures ParseUpgradeResponse(UpgradeResponse(h)) == Some(h)
  {
    var s := UpgradeResponse(h);
    assert s[|StatusLine|..] == FieldLines(h) + Crlf;
    ParseFieldLines(h);
  }
}
