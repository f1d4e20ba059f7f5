/**
 The line protocol of the chat server: what a session can read from its
 client, and the lines the server writes back.
 */
module Protocol {

  /** One outcome of `readLine` on the client's channel: a line of text,
      end of stream (`readLine` returned null), or an `IOException`. */
  datatype Event = Line(text: string) | Eof | IoError

  /** Prompt asking the client for a screen name. */
  const SubmitName: string := "SUBMITNAME"

  /** Acknowledgement that the submitted name was free and is now taken. */
  const NameAccepted: string := "NAMEACCEPTED"

  /** Notice broadcast when `name` has joined. */
  function NewClient(name: string): (r: string)
    ensures |r| == |"NEWCLIENT "| + |name|
    ensures r[..|"NEWCLIENT "|] == "NEWCLIENT " && r[|"NEWCLIENT "|..] == name
  {
    "NEWCLIENT " + name
  }

  /** Chat line `text` relayed on behalf of `name`. */
  function Message(name: string, text: string): (r: string)
    ensures |r| == |"MESSAGE "| + |name| + 2 + |text|
    ensures r[..|"MESSAGE "|] == "MESSAGE "
    ensures r[|"MESSAGE "|..|"MESSAGE "| + |name|] == name
    ensures r[|"MESSAGE "| + |name|..|"MESSAGE "| + |name| + 2] == ": "
    ensures r[|"MESSAGE "| + |name| + 2..] == text
  {
    "MESSAGE " + name + ": " + text
  }

  /** The relayed form of each of `texts`, in order. */
  function Messages(name: string, texts: seq<string>): seq<string>
  {
    if texts == [] then [] else [Message(name, texts[0])] + Messages(name, texts[1..])
  }

  /** The events a client produces by sending each of `texts` as a line. */
  function Lines(texts: seq<string>): seq<Event>
  {
    if texts == [] then [] else [Line(texts[0])] + Lines(texts[1..])
  }

  /** `k` copies of `line`. */
  function Repeat(line: string, k: nat): seq<string>
  {
    if k == 0 then [] else [line] + Repeat(line, k - 1)
  }

  /** The four kinds of server line can be told apart by a client. */
  lemma KindsDistinct(n: string, m: string, text: string)
    ensures SubmitName != NameAccepted
    ensures NewClient(n) != SubmitName && NewClient(n) != NameAccepted
    ensures Message(m, text) != SubmitName && Message(m, text) != NameAccepted
    ensures NewClient(n) != Message(m, text)
  {
    assert SubmitName[0] == 'S' && NameAccepted[0] == 'N';
    assert NewClient(n)[0] == 'N' && NewClient(n)[1] == 'E';
    assert Message(m, text)[0] == 'M';
    assert NameAccepted[1] == 'A';
  }

  /** The sender of a `MESSAGE` line cannot always be told from the line:
      a name may itself contain `": "`, as any line is accepted as a name. */
  lemma MessageAmbiguous()
    ensures Message("a: b", "c") == Message("a", "b: c")
  {
  }
}
