/** Concrete runs in which a throwing callback breaks a promise of the streamed question, with a
    small codec that meets the law assumed of the JSON library. */
module ChatExamples {
  import opened HttpText
  import opened Json
  import opened Optional
  import opened Sse
  import opened ChatMessage
  import opened ChatHistory
  import opened S = ChatStream

  const ID := "0123456789abcdef0123456789abcdef"

  /** The one message the codec knows, with or without a retry counter. */
  const MESSAGE: Exchange := Exchange(ID, 1, "user", "session", "why", "x", 0)

  function Marks(n: nat): (s: string)
    ensures |s| == n
  {
    if n == 0 then "" else "1" + Marks(n - 1)
  }

  function Counted(n: int): Json { WithNumber(ToJson(MESSAGE), "_attempt", n) }

  function Print(j: Json): Option<string> {
    if j == ToJson(MESSAGE) then Some("m")
    else if j.Obj? && "_attempt" in j.fields && j.fields["_attempt"].Int? && j == Counted(j.fields["_attempt"].n) then
      var n := j.fields["_attempt"].n;
      Some(if n >= 0 then "+" + Marks(n) else "-" + Marks(-n))
    else None
  }

  function Read(text: string): Option<Json> {
    if text == "m" then Some(ToJson(MESSAGE))
    else if text != "" && text[0] == '+' then Some(Counted(|text| - 1))
    else if text != "" && text[0] == '-' then Some(Counted(1 - |text|))
    else None
  }

  const CODEC := Codec(Read, Print)

  /** What is assumed of the library can be met. */
  lemma CodecLawful()
    ensures Lawful(CODEC)
  {
    assert "_attempt" !in ToJson(MESSAGE).fields by { NoCounter(); }
    forall n ensures Print(Counted(n)).Some? && Read(Print(Counted(n)).value) == Some(Counted(n)) { CountedBack(n); }
    forall j | Print(j).Some? ensures Read(Print(j).value) == Some(j) {}
    forall text, n | Read(text).Some? && Read(text).value.Obj?
      ensures Print(WithNumber(Read(text).value, "_attempt", n)).Some?
    {
      assert WithNumber(Read(text).value, "_attempt", n) == Counted(n);
    }
  }

  lemma CountedBack(n: int)
    ensures Print(Counted(n)).Some? && Read(Print(Counted(n)).value) == Some(Counted(n))
  {
    NoCounter();
    assert Counted(n).fields["_attempt"] == Int(n);
    var text := if n >= 0 then "+" + Marks(n) else "-" + Marks(-n);
    assert text[0] == if n >= 0 then '+' else '-';
    assert |text| == 1 + if n >= 0 then n else -n;
    assert Print(Counted(n)) == Some(text);
    assert text != "m" by { assert "m"[0] == 'm'; }
  }

  lemma NoCounter()
    ensures "_attempt" !in ToJson(MESSAGE).fields
  {
    assert |"_attempt"| == 8 && "_attempt"[0] == '_';
    assert |"username"| == 8 && "username"[0] == 'u' && |"question"| == 8 && "question"[0] == 'q';
    assert |"user_id"| == 7 && |"session_id"| == 10 && |"message_id"| == 10 && |"answer"| == 6 && |"ts"| == 2 && |"v"| == 1;
  }

  const QUESTION := Request(1, "user", "session", "why", "", ID, 0, true)

  lemma MessageFits()
    ensures InBounds(MESSAGE)
  {
    assert |ID| == 32;
    forall i | 0 <= i < 32 ensures HexDigit(ID[i]) {}
  }

  lemma FirstCommit()
    ensures Close(CODEC, EMPTY_CHAT, QUESTION, "x") ==
      Committed(Chat([Message("why", 0), Message("x", 1)], [true, false]), MESSAGE)
  {
    MessageFits();
    assert FromJson(ToJson(MESSAGE)) == Some(MESSAGE);
  }

  const NO_STRATEGY := Strategy((e: string) => None, (j: Json) => Some(false))

  /** One token from the local model, and a completion callback that throws: completion and then an
      error are reported. */
  lemma DoneThenFailed()
    ensures S.ChatStream(Env(CODEC, NO_STRATEGY, (ts: seq<string>) => false), EMPTY_CHAT, QUESTION, Local(["x"], None), true).notices
      == [Token("x"), Done("x"), Failed]
  {
    var env := Env(CODEC, NO_STRATEGY, (ts: seq<string>) => false);
    FirstCommit();
    hide Close;
    assert [] + ["x"] == ["x"] && ["x"][1..] == [];
    assert Delivered(env.fails, [], ["x"]) == Delivered(env.fails, ["x"], []) == (["x"], false);
    assert Notices(["x"]) == [Token("x")] && Flatten(["x"]) == "x" + "" == "x";
  }

  /** A tool-using model's answer whose token callback throws: the exchange is committed and an error
      is reported. */
  lemma CommittedUnseen()
    ensures var o := S.ChatStream(Env(CODEC, NO_STRATEGY, (ts: seq<string>) => true), EMPTY_CHAT, QUESTION, Mcp(Some("x")), false);
      && o.notices == [Token("x"), Failed] && !SaysDone(o.notices)
      && o.published == Some(MESSAGE) && o.chat == Chat([Message("why", 0), Message("x", 1)], [true, false])
  {
    FirstCommit();
    hide Close;
  }
}
