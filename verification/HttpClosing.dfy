/** When a connection ends, by what the client wrote and what the handler did. */
module HttpClosing {
  import opened HttpText
  import opened HttpRequest
  import opened HttpContext
  import opened HttpServer
  import opened HttpWire

  // ---- Words in a list ----------------------------------------------------------------------------------

  ghost predicate SameLetter(a: char, b: char) { if 'A' <= a <= 'Z' then a as int + 32 == b as int else a == b }

  /** `a` is the lower-case word `word`, in any mixture of cases. */
  ghost predicate SameWord(a: string, word: string) {
    |a| == |word| && forall i :: 0 <= i < |a| ==> SameLetter(a[i], word[i])
  }

  ghost predicate Blanks(s: string, i: nat, j: nat)
    requires i <= j <= |s|
  {
    forall k :: i <= k < j ==> s[k] == ' ' || s[k] == '\t'
  }

  ghost predicate WordAt(s: string, a: nat, word: string) {
    a + |word| <= |s| && forall k :: 0 <= k < |word| ==> SameLetter(s[a + k], word[k])
  }

  /** Between `i` and `j` stands the word, with blanks around it or not. */
  ghost predicate Spells(s: string, i: nat, j: nat, word: string)
    requires i <= j <= |s|
  {
    exists a: nat :: i <= a && WordAt(s, a, word) && a + |word| <= j && Blanks(s, i, a) && Blanks(s, a + |word|, j)
  }

  /** `s[i..j]` is one element of the comma-separated list `s`. */
  ghost predicate ElementAt(s: string, i: nat, j: nat) {
    i <= j <= |s| && (forall k :: i <= k < j ==> s[k] != ',') && (i == 0 || s[i - 1] == ',') && (j == |s| || s[j] == ',')
  }

  ghost predicate Listed(s: string, word: string) {
    exists i: nat, j: nat :: ElementAt(s, i, j) && Spells(s, i, j, word)
  }

  /** A word that blanks and case cannot change. */
  ghost predicate Plain(word: string) {
    word != "" && !Blank(word[0]) && !Blank(word[|word| - 1]) && forall i :: 0 <= i < |word| ==> !('A' <= word[i] <= 'Z')
  }

  lemma {:induction false} LowerIsWord(a: string, word: string)
    ensures Lower(a) == word <==> SameWord(a, word)
  {
    if |a| == |word| && a != "" {
      LowerIsWord(a[1..], word[1..]);
      assert word == [word[0]] + word[1..];
      if SameWord(a, word) {
        assert SameWord(a[1..], word[1..]);
      }
      if Lower(a) == word {
        forall i | 0 <= i < |a| ensures SameLetter(a[i], word[i]) {
          if i > 0 { assert a[1..][i - 1] == a[i] && word[1..][i - 1] == word[i]; }
        }
      }
    }
  }

  lemma {:induction false} TrimLeftIs(s: string) returns (n: nat)
    ensures n <= |s| && Blanks(s, 0, n) && TrimLeft(s) == s[n..] && (n < |s| ==> !Blank(s[n]))
  {
    n := 0;
    if s != "" && Blank(s[0]) {
      var t := s[1..];
      var m := TrimLeftIs(t);
      n := m + 1;
      assert s[n..] == t[m..];
      assert forall k :: 1 <= k < |s| ==> s[k] == t[k - 1];
    }
  }

  lemma {:induction false} TrimRightIs(s: string) returns (n: nat)
    ensures n <= |s| && Blanks(s, n, |s|) && TrimRight(s) == s[..n] && (n > 0 ==> !Blank(s[n - 1]))
  {
    n := |s|;
    if s != "" && Blank(s[|s| - 1]) {
      var t := s[..|s| - 1];
      n := TrimRightIs(t);
      assert s[..n] == t[..n];
    }
  }

  /** Trimming cuts out what stands between the outer blanks. */
  lemma TrimIs(s: string) returns (i: nat, j: nat)
    ensures i <= j <= |s| && Blanks(s, 0, i) && Blanks(s, j, |s|) && Trim(s) == s[i..j]
    ensures i < j ==> !Blank(s[i]) && !Blank(s[j - 1])
  {
    i := TrimLeftIs(s);
    var t := s[i..];
    var n := TrimRightIs(t);
    j := i + n;
    hide TrimLeft, TrimRight;
    assert t[..n] == s[i..j];
    assert forall k :: 0 <= k < |t| ==> t[k] == s[i + k];
  }

  lemma CutIsWord(s: string, i: nat, j: nat, word: string)
    requires i <= j <= |s|
    ensures SameWord(s[i..j], word) <==> j == i + |word| && WordAt(s, i, word)
  {
    var t := s[i..j];
    assert forall k :: 0 <= k < |t| ==> t[k] == s[i + k];
  }

  lemma TrimSpells(s: string, word: string)
    requires Plain(word)
    ensures Lower(Trim(s)) == word <==> Spells(s, 0, |s|, word)
  {
    var i, j := TrimIs(s);
    LowerIsWord(s[i..j], word);
    CutIsWord(s, i, j, word);
    hide Trim, Lower, WordAt, SameWord;
    if a: nat :| WordAt(s, a, word) && a + |word| <= |s| && Blanks(s, 0, a) && Blanks(s, a + |word|, |s|) {
      SameCut(s, word, a, i, j);
    }
  }

  /** The word between blanks has one place only. */
  lemma SameCut(s: string, word: string, a: nat, i: nat, j: nat)
    requires Plain(word) && WordAt(s, a, word) && a + |word| <= |s| && Blanks(s, 0, a) && Blanks(s, a + |word|, |s|)
    requires i <= j <= |s| && Blanks(s, 0, i) && Blanks(s, j, |s|) && (i < j ==> !Blank(s[i]) && !Blank(s[j - 1]))
    ensures a == i && a + |word| == j
  {
    assert SameLetter(s[a + 0], word[0]) && SameLetter(s[a + (|word| - 1)], word[|word| - 1]);
    assert !Blank(s[a]) && !Blank(s[a + |word| - 1]);
  }

  /** Positions in a list and in the list after a comma. */
  lemma Shifted(s: string, m: nat, i: nat, j: nat, word: string)
    requires 0 < m <= |s| && s[m - 1] == ',' && i <= j <= |s| - m
    ensures ElementAt(s[m..], i, j) <==> ElementAt(s, i + m, j + m)
    ensures Spells(s[m..], i, j, word) <==> Spells(s, i + m, j + m, word)
  {
    var t := s[m..];
    assert forall k :: 0 <= k < |t| ==> t[k] == s[k + m];
    SpellsShifted(s, t, m, i, j, word);
    ElementShifted(s, t, m, i, j);
  }

  lemma ElementShifted(s: string, t: string, m: nat, i: nat, j: nat)
    requires 0 < m <= |s| && s[m - 1] == ',' && i <= j <= |t| && |t| == |s| - m && forall k :: 0 <= k < |t| ==> t[k] == s[k + m]
    ensures ElementAt(t, i, j) <==> ElementAt(s, i + m, j + m)
  {
    if ElementAt(s, i + m, j + m) {
      forall k | i <= k < j ensures t[k] != ',' { assert s[k + m] != ','; }
    }
    if ElementAt(t, i, j) {
      forall k | i + m <= k < j + m ensures s[k] != ',' { assert t[k - m] != ','; }
    }
  }

  lemma SpellsShifted(s: string, t: string, m: nat, i: nat, j: nat, word: string)
    requires m <= |s| && i <= j <= |t| && |t| == |s| - m && forall k :: 0 <= k < |t| ==> t[k] == s[k + m]
    ensures Spells(t, i, j, word) <==> Spells(s, i + m, j + m, word)
  {
    forall a: nat | i <= a && a + |word| <= j
      ensures WordAt(t, a, word) && Blanks(t, i, a) && Blanks(t, a + |word|, j) <==>
        WordAt(s, a + m, word) && Blanks(s, i + m, a + m) && Blanks(s, a + m + |word|, j + m)
    {
      WordShifted(s, t, m, a, word);
      BlanksShifted(s, t, m, i, a);
      BlanksShifted(s, t, m, a + |word|, j);
    }
    hide WordAt, Blanks;
    if a: nat :| i + m <= a && WordAt(s, a, word) && a + |word| <= j + m && Blanks(s, i + m, a) && Blanks(s, a + |word|, j + m) {
      assert WordAt(t, a - m, word) && Blanks(t, i, a - m) && Blanks(t, a - m + |word|, j);
    }
    if a: nat :| i <= a && WordAt(t, a, word) && a + |word| <= j && Blanks(t, i, a) && Blanks(t, a + |word|, j) {
      assert WordAt(s, a + m, word) && Blanks(s, i + m, a + m) && Blanks(s, a + m + |word|, j + m);
    }
  }

  lemma WordShifted(s: string, t: string, m: nat, a: nat, word: string)
    requires m <= |s| && |t| == |s| - m && forall k :: 0 <= k < |t| ==> t[k] == s[k + m]
    ensures WordAt(t, a, word) <==> WordAt(s, a + m, word)
  {
    if a + |word| <= |t| {
      forall k | 0 <= k < |word| ensures SameLetter(t[a + k], word[k]) <==> SameLetter(s[a + m + k], word[k]) {
        assert t[a + k] == s[a + k + m];
      }
    }
  }

  lemma BlanksShifted(s: string, t: string, m: nat, i: nat, j: nat)
    requires m <= |s| && |t| == |s| - m && i <= j <= |t| && forall k :: 0 <= k < |t| ==> t[k] == s[k + m]
    ensures Blanks(t, i, j) <==> Blanks(s, i + m, j + m)
  {
    forall k | i + m <= k < j + m ensures s[k] == t[k - m] {}
    forall k | i <= k < j ensures t[k] == s[k + m] {}
  }

  lemma FrontSpells(s: string, n: nat, i: nat, j: nat, word: string)
    requires i <= j <= n <= |s|
    ensures Spells(s[..n], i, j, word) <==> Spells(s, i, j, word)
  {
    var t := s[..n];
    assert forall k :: 0 <= k < n ==> t[k] == s[k];
    forall a: nat | a + |word| <= n ensures WordAt(t, a, word) <==> WordAt(s, a, word) {}
    forall i: nat, j: nat | i <= j <= n ensures Blanks(t, i, j) <==> Blanks(s, i, j) {}
    hide WordAt, Blanks;
    if a: nat :| i <= a && WordAt(s, a, word) && a + |word| <= j && Blanks(s, i, a) && Blanks(s, a + |word|, j) {
      assert WordAt(t, a, word) && Blanks(t, i, a) && Blanks(t, a + |word|, j);
    }
    if a: nat :| i <= a && WordAt(t, a, word) && a + |word| <= j && Blanks(t, i, a) && Blanks(t, a + |word|, j) {
      assert WordAt(s, a, word) && Blanks(s, i, a) && Blanks(s, a + |word|, j);
    }
  }

  /** An element is the first one, or one of the list after the first comma. */
  lemma FirstOrLater(s: string, n: nat, i: nat, j: nat)
    requires n <= |s| && (forall k :: 0 <= k < n ==> s[k] != ',') && (n < |s| ==> s[n] == ',') && ElementAt(s, i, j)
    ensures (i == 0 && j == n) || (n < i && n < |s|)
  {
  }

  lemma NoCommaBefore(s: string)
    ensures var n := Find(s, ','); forall k :: 0 <= k < n ==> s[k] != ','
  {
    var n := Find(s, ',');
    assert forall k :: 0 <= k < n ==> s[..n][k] == s[k] && s[k] in s[..n];
  }

  /** The first element of a list ends at its first comma. */
  lemma ListedStep(s: string, word: string)
    ensures var n := Find(s, ',');
      Listed(s, word) <==> Spells(s, 0, n, word) || (n < |s| && Listed(s[n + 1..], word))
  {
    var n := Find(s, ',');
    NoCommaBefore(s);
    hide Spells, Find;
    if i: nat, j: nat :| ElementAt(s, i, j) && Spells(s, i, j, word) {
      FirstOrLater(s, n, i, j);
      if i > n { Shifted(s, n + 1, i - (n + 1), j - (n + 1), word); }
    }
    if Spells(s, 0, n, word) { assert ElementAt(s, 0, n); }
    if n < |s| && Listed(s[n + 1..], word) { ListedLater(s, n, word); }
  }

  lemma ListedLater(s: string, n: nat, word: string)
    requires n < |s| && s[n] == ',' && Listed(s[n + 1..], word)
    ensures Listed(s, word)
  {
    var t := s[n + 1..];
    var i: nat, j: nat :| ElementAt(t, i, j) && Spells(t, i, j, word);
    hide Spells;
    Shifted(s, n + 1, i, j, word);
    assert ElementAt(s, i + n + 1, j + n + 1);
  }

  /** The server finds a word exactly if it is listed. */
  lemma {:induction false} TokenListed(s: string, word: string)
    requires Plain(word)
    ensures HasToken(s, word) <==> Listed(s, word)
    decreases |s|
  {
    hide HasToken, Listed, Spells, Find, Trim, Lower;
    var n := Find(s, ',');
    TokenStep(s, word);
    ListedStep(s, word);
    TrimSpells(s[..n], word);
    FrontSpells(s, n, 0, n, word);
    if n < |s| { TokenListed(s[n + 1..], word); }
  }

  // ---- The connection fields of a request -----------------------------------------------------------------

  /** One of the request's connection fields lists the word. */
  ghost predicate Asks(w: Wire, word: string) {
    exists f :: f in w.fields && SameWord(f.0, "connection") && Listed(f.1, word)
  }

  ghost predicate HeaderHas(h: map<string, string>, word: string) {
    "connection" in h && Listed(h["connection"], word)
  }

  /** A comma joins two lists. */
  lemma JoinedListed(a: string, b: string, word: string)
    ensures Listed(a + "," + b, word) <==> Listed(a, word) || Listed(b, word)
  {
    var n, s := |a|, a + "," + b;
    assert s[..n] == a && s[n] == ',' && s[n + 1..] == b;
    if Listed(s, word) { ListedSplit(s, n, word); }
    if Listed(a, word) { ListedFirst(s, n, word); }
    if Listed(b, word) { ListedLater(s, n, word); }
  }

  lemma ListedSplit(s: string, n: nat, word: string)
    requires n < |s| && s[n] == ',' && Listed(s, word)
    ensures Listed(s[..n], word) || Listed(s[n + 1..], word)
  {
    var i: nat, j: nat :| ElementAt(s, i, j) && Spells(s, i, j, word);
    hide Spells;
    if j <= n {
      FrontSpells(s, n, i, j, word);
      FrontElement(s, n, i, j);
    } else {
      Shifted(s, n + 1, i - (n + 1), j - (n + 1), word);
    }
  }

  lemma ListedFirst(s: string, n: nat, word: string)
    requires n < |s| && s[n] == ',' && Listed(s[..n], word)
    ensures Listed(s, word)
  {
    var i: nat, j: nat :| ElementAt(s[..n], i, j) && Spells(s[..n], i, j, word);
    hide Spells;
    FrontSpells(s, n, i, j, word);
    FrontElement(s, n, i, j);
  }

  lemma FrontElement(s: string, n: nat, i: nat, j: nat)
    requires n < |s| && s[n] == ',' && j <= n
    ensures ElementAt(s[..n], i, j) <==> ElementAt(s, i, j)
  {
    assert forall k :: 0 <= k < n ==> s[..n][k] == s[k];
  }

  lemma FieldAsks(h: map<string, string>, f: Pair, word: string)
    ensures HeaderHas(WithField(h, f), word) <==>
      HeaderHas(h, word) || (Lower(f.0) == "connection" && Listed(f.1, word))
  {
    hide Listed, Lower;
    if Lower(f.0) == "connection" && "connection" in h { JoinedListed(h["connection"], f.1, word); }
  }

  lemma {:induction false} FieldsAsk(h: map<string, string>, fields: seq<Pair>, word: string)
    ensures HeaderHas(FieldMap(h, fields), word) <==>
      HeaderHas(h, word) || exists f :: f in fields && Lower(f.0) == "connection" && Listed(f.1, word)
    decreases |fields|
  {
    hide Listed, Lower, HeaderHas, WithField;
    if fields != [] {
      FieldAsks(h, fields[0], word);
      FieldsAsk(WithField(h, fields[0]), fields[1..], word);
      assert fields == [fields[0]] + fields[1..];
    }
  }

  lemma NothingListed(word: string)
    requires word != ""
    ensures !Listed("", word)
  {
  }

  /** The words of the joined header are those of the fields. */
  lemma MeaningAsks(w: Wire, word: string)
    requires Plain(word)
    ensures HasToken(Header(Meaning(w), "connection"), word) <==> Asks(w, word)
  {
    FieldsAsk(map[], w.fields, word);
    NothingListed(word);
    var h := FieldMap(map[], w.fields);
    assert Header(Meaning(w), "connection") == if "connection" in h then h["connection"] else "";
    TokenListed(Header(Meaning(w), "connection"), word);
    hide HasToken, Listed, Lower, FieldMap, Meaning;
    forall f | f in w.fields ensures Lower(f.0) == "connection" <==> SameWord(f.0, "connection") {
      LowerIsWord(f.0, "connection");
    }
  }

  // ---- The end of a connection -------------------------------------------------------------------------------

  /** The request `w`, answered with `reply`, is the last of its connection: a stream takes the connection
      over, the response closes it, the client asked for close, or it speaks HTTP/1.0 and did not ask for
      keep-alive. */
  ghost predicate Ends(w: Wire, reply: Reply) {
    match reply
    case Normal(closes) => closes || Asks(w, "close") || (w.version == "HTTP/1.0" && !Asks(w, "keep-alive"))
    case Streaming => true
    case Raises => false
  }

  lemma DecisionMeans(handler: Request -> Reply, w: Wire)
    ensures Decide(handler, Meaning(w)) ==
      var reply := handler(Meaning(w)); if reply.Raises? then Fail else if Ends(w, reply) then Finish else KeepOpen
  {
    assert Meaning(w).version == w.version;
    hide Meaning, HasToken, Asks;
    assert Plain("close") && Plain("keep-alive");
    MeaningAsks(w, "close");
    MeaningAsks(w, "keep-alive");
  }

  /** A request that ends its connection is the last one dispatched, whatever was sent after it. */
  lemma EndsConnection(handler: Request -> Reply, s: Conn, w: Wire, suffix: string)
    requires !s.stopped && s.context == NEW_CONTEXT && s.buf == Text(w) + suffix
    requires Valid(w) && Ends(w, handler(Meaning(w)))
    ensures Drain(handler, s) == Conn(NEW_CONTEXT, "", true, s.dispatched + [Meaning(w)], s.errors)
  {
    assert !handler(Meaning(w)).Raises?;
    DecisionMeans(handler, w);
    hide *;
    LastRequest(handler, s, w, suffix);
  }

  /** A handler's exception ends the connection with one error response. */
  lemma RaisesEnds(handler: Request -> Reply, s: Conn, w: Wire, suffix: string)
    requires !s.stopped && s.context == NEW_CONTEXT && s.buf == Text(w) + suffix
    requires Valid(w) && handler(Meaning(w)).Raises?
    ensures Drain(handler, s) == Conn(NEW_CONTEXT, "", true, s.dispatched + [Meaning(w)], s.errors + 1)
  {
    hide Valid, Text, Meaning, Parse;
    TextParsed(w, suffix);
  }

  /** Any number of requests that do not end the connection are dispatched in order and leave it open for
      what follows. */
  lemma StaysOpen(handler: Request -> Reply, s: Conn, ws: seq<Wire>, suffix: string)
    requires !s.stopped && s.context == NEW_CONTEXT && s.buf == TextAll(ws) + suffix
    requires forall i :: 0 <= i < |ws| ==>
      Valid(ws[i]) && handler(Meaning(ws[i])).Normal? && !Ends(ws[i], handler(Meaning(ws[i])))
    ensures Drain(handler, s) == Drain(handler, s.(buf := suffix, dispatched := s.dispatched + MeaningAll(ws)))
  {
    hide *;
    forall i | 0 <= i < |ws| ensures Decide(handler, Meaning(ws[i])) == KeepOpen { DecisionMeans(handler, ws[i]); }
    Pipelined(handler, s, ws, suffix);
  }
}
