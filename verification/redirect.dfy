/** The rendezvous server's redirect reply, `CONNECT <host> <port>`, and the
    `strtok`-based `parse_port` that pulls the port out of it (client.c).

    `strtok` is called with the delimiter set `" "`: only the space character
    separates tokens, so a tab or the reply's trailing newline stays inside a
    token. Runs of spaces, and spaces before the first token, produce no empty
    tokens. */
module Redirect {
  import opened Text

  /** A token cut off the front of the text, and the text the next `strtok`
      call resumes on. */
  datatype Cut = Cut(token: string, rest: string)

  /** The characters up to the next space, and what follows that space (the
      space itself is overwritten by the terminator `strtok` writes). */
  function Word(s: string): (r: Cut)
    ensures r.token <= s
    ensures ' ' !in r.token
    ensures |r.token| == |s| ==> r.rest == ""
    ensures |r.token| < |s| ==> s[|r.token|] == ' ' && r.rest == s[|r.token| + 1..]
    decreases |s|
  {
    if |s| == 0 then Cut("", "")
    else if s[0] == ' ' then Cut("", s[1..])
    else
      var w := Word(s[1..]);
      Cut([s[0]] + w.token, w.rest)
  }

  /** The number of spaces the text starts with. */
  function SpacesEnd(s: string): (k: nat)
    ensures k <= |s|
    ensures forall i :: 0 <= i < k ==> s[i] == ' '
    ensures k == |s| || s[k] != ' '
    decreases |s|
  {
    if |s| == 0 || s[0] != ' ' then 0 else 1 + SpacesEnd(s[1..])
  }

  /** One `strtok(…, " ")` call on the text that is left: leading spaces are
      skipped; `None` (a null pointer) when nothing but spaces remains. */
  function StrTok(s: string): (r: Option<Cut>)
    ensures r.Some? ==> r.value.token != "" && ' ' !in r.value.token
    ensures r.Some? ==> |r.value.rest| < |s|
    decreases |s|
  {
    if |s| == 0 then None
    else if s[0] == ' ' then StrTok(s[1..])
    else Some(Word(s))
  }

  /** What one `strtok` call returns: null exactly when the text is all
      spaces, and otherwise the word that starts after the leading spaces. */
  lemma {:induction false} StrTokSkipsSpaces(s: string)
    ensures StrTok(s).None? <==> forall i :: 0 <= i < |s| ==> s[i] == ' '
    ensures StrTok(s).Some? ==> StrTok(s).value == Word(s[SpacesEnd(s)..])
    decreases |s|
  {
    if |s| > 0 && s[0] == ' ' {
      StrTokSkipsSpaces(s[1..]);
      assert s[1..][SpacesEnd(s[1..])..] == s[SpacesEnd(s)..];
      if forall i :: 0 <= i < |s[1..]| ==> s[1..][i] == ' ' {
        forall i | 0 <= i < |s|
          ensures s[i] == ' '
        {
          if i > 0 {
            assert s[i] == s[1..][i - 1];
          }
        }
      }
    }
  }

  /** `parse_port`: three `strtok` calls; the first token (`CONNECT`) and the
      second (the host) are thrown away, the third is returned, or null as soon
      as a call finds no token. */
  function ParsePort(text: string): (r: Option<string>)
    ensures r.Some? ==> r.value != "" && ' ' !in r.value
  {
    match StrTok(text)
    case None => None
    case Some(verb) =>
      match StrTok(verb.rest)
      case None => None
      case Some(host) =>
        match StrTok(host.rest)
        case None => None
        case Some(port) => Some(port.token)
  }

  // ---------------------------------------------------------------------
  // Reference definition: the fields of a line are the maximal runs of
  // non-space characters, obtained by cutting at every space and dropping the
  // empty pieces.
  // ---------------------------------------------------------------------

  /** The pieces between consecutive spaces (empty pieces included). */
  function Split(s: string): (parts: seq<string>)
    ensures |parts| >= 1
    decreases |s|
  {
    if |s| == 0 then [""]
    else
      var rest := Split(s[1..]);
      if s[0] == ' ' then [""] + rest else [[s[0]] + rest[0]] + rest[1..]
  }

  /** The pieces glued back together with single spaces. */
  function Join(parts: seq<string>): string
    requires |parts| >= 1
    decreases |parts|
  {
    if |parts| == 1 then parts[0] else parts[0] + " " + Join(parts[1..])
  }

  function NonEmpty(parts: seq<string>): (r: seq<string>)
    ensures forall i :: 0 <= i < |r| ==> r[i] != ""
    decreases |parts|
  {
    if |parts| == 0 then []
    else if parts[0] == "" then NonEmpty(parts[1..])
    else [parts[0]] + NonEmpty(parts[1..])
  }

  /** The whitespace-separated fields `strtok(…, " ")` would hand out, in order. */
  function Fields(s: string): seq<string>
  {
    NonEmpty(Split(s))
  }

  /** `Split` really cuts at the spaces: gluing the pieces back with single
      spaces gives the text back, and no piece contains a space. */
  lemma {:induction false} SplitJoin(s: string)
    ensures Join(Split(s)) == s
    ensures forall i :: 0 <= i < |Split(s)| ==> ' ' !in Split(s)[i]
    decreases |s|
  {
    if |s| > 0 {
      var rest := Split(s[1..]);
      SplitJoin(s[1..]);
      if s[0] == ' ' {
        assert Split(s) == [""] + rest;
        assert Join(Split(s)) == "" + " " + Join(rest);
        assert s == [s[0]] + s[1..];
      } else if |rest| == 1 {
        assert Split(s) == [[s[0]] + rest[0]];
        assert s == [s[0]] + s[1..];
      } else {
        var parts := Split(s);
        assert parts == [[s[0]] + rest[0]] + rest[1..];
        assert parts[1..] == rest[1..];
        assert Join(parts) == [s[0]] + rest[0] + " " + Join(rest[1..]);
        assert s == [s[0]] + s[1..];
      }
      forall i | 0 <= i < |Split(s)|
        ensures ' ' !in Split(s)[i]
      {
        if s[0] != ' ' && i == 0 {
          assert Split(s)[0] == [s[0]] + rest[0];
          assert ' ' !in rest[0];
        }
      }
    }
  }

  lemma {:induction false} NonEmptyAppend(a: seq<string>, b: seq<string>)
    ensures NonEmpty(a + b) == NonEmpty(a) + NonEmpty(b)
    decreases |a|
  {
    if |a| > 0 {
      assert (a + b)[1..] == a[1..] + b;
      NonEmptyAppend(a[1..], b);
    } else {
      assert a + b == b;
    }
  }

  /** The first piece of `Split` is the word `strtok` would cut off. */
  lemma {:induction false} SplitHeadIsWord(s: string)
    ensures Split(s)[0] == Word(s).token
    decreases |s|
  {
    if |s| > 0 && s[0] != ' ' {
      SplitHeadIsWord(s[1..]);
    }
  }

  /** Cutting off one word leaves exactly the remaining fields. */
  lemma {:induction false} WordFields(s: string)
    ensures Fields(s) == NonEmpty([Word(s).token]) + Fields(Word(s).rest)
    decreases |s|
  {
    if |s| == 0 {
    } else if s[0] == ' ' {
      assert Split(s) == [""] + Split(s[1..]);
      NonEmptyAppend([""], Split(s[1..]));
    } else {
      var p := Split(s[1..]);
      var w := Word(s[1..]);
      WordFields(s[1..]);
      SplitHeadIsWord(s[1..]);
      assert p == [p[0]] + p[1..];
      NonEmptyAppend([p[0]], p[1..]);
      var a := NonEmpty([w.token]);
      assert a + NonEmpty(p[1..]) == a + Fields(w.rest);
      assert NonEmpty(p[1..]) == (a + NonEmpty(p[1..]))[|a|..];
      assert NonEmpty(p[1..]) == Fields(w.rest);
      assert Split(s) == [[s[0]] + p[0]] + p[1..];
      NonEmptyAppend([[s[0]] + p[0]], p[1..]);
    }
  }

  /** Each `strtok(…, " ")` call hands out the next field, and returns null
      exactly when no field is left. */
  lemma {:induction false} StrTokFields(s: string)
    ensures StrTok(s).None? <==> Fields(s) == []
    ensures StrTok(s).Some? ==> Fields(s) == [StrTok(s).value.token] + Fields(StrTok(s).value.rest)
    decreases |s|
  {
    if |s| == 0 {
    } else if s[0] == ' ' {
      assert Split(s) == [""] + Split(s[1..]);
      NonEmptyAppend([""], Split(s[1..]));
      StrTokFields(s[1..]);
    } else {
      WordFields(s);
      assert Word(s).token != "";
    }
  }

  /** `parse_port` returns the third field of the reply, and null exactly when
      the reply has fewer than three fields. The second field, the host, plays
      no part in the result. */
  lemma ParsePortThirdField(text: string)
    ensures |Fields(text)| >= 3 ==> ParsePort(text) == Some(Fields(text)[2])
    ensures |Fields(text)| < 3 <==> ParsePort(text) == None
  {
    StrTokFields(text);
    if StrTok(text).Some? {
      var r1 := StrTok(text).value.rest;
      StrTokFields(r1);
      if StrTok(r1).Some? {
        StrTokFields(StrTok(r1).value.rest);
      }
    }
  }

  lemma {:induction false} SplitAppend(x: string, y: string)
    ensures Split(x + " " + y) == Split(x) + Split(y)
    decreases |x|
  {
    if |x| == 0 {
      assert x + " " + y == " " + y;
    } else {
      assert (x + " " + y)[1..] == x[1..] + " " + y;
      SplitAppend(x[1..], y);
    }
  }

  lemma {:induction false} SplitWord(x: string)
    requires ' ' !in x
    ensures Split(x) == [x]
    decreases |x|
  {
    if |x| > 0 {
      SplitWord(x[1..]);
      assert x == [x[0]] + x[1..];
    }
  }

  /** A reply `verb host port` with single spaces yields `port`, whatever the
      host is. */
  lemma ParsePortOfRedirect(verb: string, host: string, port: string)
    requires verb != "" && host != "" && port != ""
    requires ' ' !in verb && ' ' !in host && ' ' !in port
    ensures ParsePort(verb + " " + host + " " + port) == Some(port)
  {
    var tail := host + " " + port;
    var line := verb + " " + host + " " + port;
    assert line == verb + " " + tail;
    SplitAppend(verb, tail);
    SplitAppend(host, port);
    SplitWord(verb);
    SplitWord(host);
    SplitWord(port);
    assert Split(line) == [verb] + ([host] + [port]);
    assert Split(line) == [verb, host, port];
    assert NonEmpty([port]) == [port];
    assert [verb, host, port][1..] == [host, port];
    assert [host, port][1..] == [port];
    assert NonEmpty([host, port]) == [host, port];
    assert Fields(line) == [verb, host, port];
    ParsePortThirdField(line);
  }

  /** Only the space is a delimiter, so the newline that ends the rendezvous
      reply stays on the port string handed to `connectToHost`. */
  lemma PortKeepsNewline(host: string, port: string)
    requires host != "" && port != ""
    requires ' ' !in host && ' ' !in port
    ensures ParsePort("CONNECT " + host + " " + port + "\n") == Some(port + "\n")
  {
    assert "CONNECT " + host + " " + port + "\n" == "CONNECT" + " " + host + " " + (port + "\n");
    ParsePortOfRedirect("CONNECT", host, port + "\n");
  }
}
