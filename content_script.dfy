/**
  The WhatsApp Web content script: it reads every chat row of the page into a
  `ChatMessage` and answers the popup's `getChatMessages` request with them.

  The page is abstracted to what the script queries: for each
  `div[role="row"]` whether it has a `[data-id]` container and, inside that
  container, whether a `.message-out` element exists, the inner text of the
  message span and the `data-pre-plain-text` attribute of the first
  `.copyable-text` element. The attribute holds a header such as
  `[10:31, 15/06/2024] Alice: `, which the script parses with the regular
  expression `^\[(.+?)\]\s*(.*?):\s*$`.
 */
module ContentScript {

  import opened Wrappers
  import opened JsString
  import opened ChatMessages

  /** What the script reads inside one `[data-id]` container. */
  datatype Container = Container(
    hasMessageOut: bool,          // a `.message-out` element is present
    span: Option<string>,         // innerText of `span.selectable-text.copyable-text`, if present
    prePlainText: Option<string>) // `data-pre-plain-text` of the first `.copyable-text`, if present

  /** One `div[role="row"]`: it may or may not hold a `[data-id]` container. */
  datatype Row = Row(container: Option<Container>)

  /** A runtime message sent to the content script; `action` is `None` when absent or not a string. */
  datatype Request = Request(action: Option<string>)

  datatype Response = Response(messages: seq<ChatMessage>)

  const GetChatMessages := "getChatMessages"
  const OwnAuthor := "You"

  // ---------------------------------------------------------------------------
  // The header regular expression ^\[(.+?)\]\s*(.*?):\s*$
  // ---------------------------------------------------------------------------

  /** `r == w + author + ":" + t` is a way for the text after `]` to match `\s*(.*?):\s*$`. */
  ghost predicate TailSplit(r: string, w: string, author: string, t: string) {
    && AllWhitespace(w)
    && NoLineTerminator(author)
    && AllWhitespace(t)
    && r == w + author + ":" + t
  }

  /** A way for the whole header to match: `ts` is group 1, `author` group 2, `w` and `t` the two `\s*` runs. */
  ghost predicate HeaderSplit(pre: string, ts: string, w: string, author: string, t: string) {
    && |ts| >= 1
    && NoLineTerminator(ts)
    && AllWhitespace(w)
    && NoLineTerminator(author)
    && AllWhitespace(t)
    && pre == "[" + ts + "]" + w + author + ":" + t
  }

  /** The regular expression matches `pre`. */
  ghost predicate HeaderMatches(pre: string) {
    exists ts, w, author, t :: HeaderSplit(pre, ts, w, author, t)
  }

  /**
    `(ts, author)` comes from a split that beats every split whose group 1 has
    at least `n` characters: group 1 is shortest (`+?` is lazy), and among
    splits with that group 1 the first `\s*` is longest (it is greedy).
   */
  ghost predicate BestFrom(pre: string, n: nat, ts: string, author: string) {
    exists w, t ::
      && HeaderSplit(pre, ts, w, author, t)
      && forall ts', w', a', t' ::
           HeaderSplit(pre, ts', w', a', t') && |ts'| >= n ==> |ts| < |ts'| || (|ts'| == |ts| && |w'| <= |w|)
  }

  /** The groups a backtracking matcher reports for `pre`. */
  ghost predicate PreferredSplit(pre: string, ts: string, author: string) {
    BestFrom(pre, 1, ts, author)
  }

  /**
    Matches `\s*(.*?):\s*$` against the text after `]`: the colon has to be the
    last non-whitespace character, and group 2 is what lies between the
    leading whitespace and that colon.
   */
  function MatchTail(r: string): Option<string> {
    var body := TrimEnd(r);
    if |body| > 0 && body[|body| - 1] == ':' then
      var author := TrimStart(body[..|body| - 1]);
      if NoLineTerminator(author) then Some(author) else None
    else None
  }

  /** Tries group 1 = `pre[1..n + 1]`, then longer groups, as the lazy `(.+?)` does. */
  function MatchFrom(pre: string, n: nat): Option<(string, string)>
    requires 1 <= n
    decreases |pre| - n
  {
    if GroupBlocked(pre, n) then None
    else if pre[n + 1] == ']' && MatchTail(pre[n + 2..]).Some? then
      Some((pre[1..n + 1], MatchTail(pre[n + 2..]).value))
    else MatchFrom(pre, n + 1)
  }

  /** `pre.match(/^\[(.+?)\]\s*(.*?):\s*$/)`, giving groups 1 and 2. */
  function MatchHeader(pre: string): Option<(string, string)> {
    if |pre| > 0 && pre[0] == '[' then MatchFrom(pre, 1) else None
  }

  /** In a split of the tail, the trailing whitespace is exactly `t` and the colon precedes it. */
  lemma TailSplitEnd(r: string, w: string, a: string, t: string)
    requires TailSplit(r, w, a, t)
    ensures TrailingStart(r) == |w| + |a| + 1
    ensures r[..|w| + |a|] == w + a
    ensures TrimEnd(r) == w + a + ":"
  {
    var p := |w| + |a|;
    assert r == (w + a) + ":" + t;
    assert r[p + 1..] == t;
    TrailingStartUnique(r, p + 1);
  }

  /** Whitespace in front of `a` adds to the leading run and is dropped by `trimStart`. */
  lemma LeadingPastWhitespace(w: string, a: string)
    requires AllWhitespace(w)
    ensures LeadingWhitespace(w + a) == |w| + LeadingWhitespace(a)
    ensures TrimStart(w + a) == TrimStart(a)
  {
    LeadingWhitespaceUnique(w + a, |w| + LeadingWhitespace(a));
  }

  lemma TrimStartNoLineTerminator(a: string)
    requires NoLineTerminator(a)
    ensures NoLineTerminator(TrimStart(a))
  {
  }

  /** A tail that can match makes the matcher succeed, with a leading run at least as long. */
  lemma TailShape(r: string, w: string, a: string, t: string)
    ensures TailSplit(r, w, a, t) ==>
              && TrailingStart(r) == |w| + |a| + 1
              && LeadingWhitespace(r[..|w| + |a|]) >= |w|
              && MatchTail(r).Some?
  {
    if TailSplit(r, w, a, t) {
      TailSplitEnd(r, w, a, t);
      LeadingPastWhitespace(w, a);
      TrimStartNoLineTerminator(a);
      assert (w + a + ":")[..|w| + |a|] == w + a;
    }
  }

  /** What a successful match of the tail reads: the colon ends the trimmed text, group 2 precedes it. */
  lemma MatchTailParts(r: string)
    requires MatchTail(r).Some?
    ensures TrailingStart(r) >= 1 && r[TrailingStart(r) - 1] == ':'
    ensures MatchTail(r).value == TrimStart(r[..TrailingStart(r) - 1])
    ensures NoLineTerminator(MatchTail(r).value)
  {
    var k := TrailingStart(r);
    assert TrimEnd(r)[..k - 1] == r[..k - 1];
  }

  /** A string is its leading whitespace followed by its `trimStart`. */
  lemma LeadingSplit(u: string)
    ensures u == u[..LeadingWhitespace(u)] + TrimStart(u)
    ensures AllWhitespace(u[..LeadingWhitespace(u)])
  {
  }

  /** When the matcher succeeds, its group 2 comes from a real split of the tail. */
  lemma TailSound(r: string)
    requires MatchTail(r).Some?
    ensures var p := TrailingStart(r) - 1;
            p >= 0 && TailSplit(r, r[..LeadingWhitespace(r[..p])], MatchTail(r).value, r[p + 1..])
  {
    MatchTailParts(r);
    var p := TrailingStart(r) - 1;
    var u := r[..p];
    LeadingSplit(u);
    var l := LeadingWhitespace(u);
    assert u[..l] == r[..l];
    SliceAround(r, p);
  }

  lemma HeaderSplitAt(pre: string, ts: string, w: string, a: string, t: string)
    requires HeaderSplit(pre, ts, w, a, t)
    ensures |pre| >= |ts| + 3 && pre[0] == '[' && pre[1..|ts| + 1] == ts && pre[|ts| + 1] == ']'
    ensures forall i :: 1 <= i <= |ts| ==> !IsLineTerminator(pre[i])
  {
    assert pre == "[" + ts + "]" + (w + a + ":" + t);
    forall i | 1 <= i <= |ts|
      ensures !IsLineTerminator(pre[i])
    {
      assert pre[i] == ts[i - 1];
    }
  }

  lemma HeaderSplitFrom(pre: string, n: nat, w: string, a: string, t: string)
    requires 1 <= n && n + 1 < |pre| && pre[0] == '[' && pre[n + 1] == ']'
    requires NoLineTerminator(pre[1..n + 1])
    requires TailSplit(pre[n + 2..], w, a, t)
    ensures HeaderSplit(pre, pre[1..n + 1], w, a, t)
  {
    assert pre == "[" + pre[1..n + 1] + "]" + pre[n + 2..];
  }

  /** Every split starts with `[`. */
  lemma HeaderStartsWithBracket(pre: string)
    ensures HeaderMatches(pre) ==> |pre| > 0 && pre[0] == '['
  {
    if HeaderMatches(pre) {
      var ts, w, a, t :| HeaderSplit(pre, ts, w, a, t);
      HeaderSplitAt(pre, ts, w, a, t);
    }
  }

  /** Group 1 cannot reach past the end of `pre` or across a line terminator. */
  predicate GroupBlocked(pre: string, n: nat) {
    n + 1 >= |pre| || IsLineTerminator(pre[n])
  }

  lemma MatchFromBlocked(pre: string, n: nat)
    requires 1 <= n && GroupBlocked(pre, n)
    ensures forall ts, w, a, t :: HeaderSplit(pre, ts, w, a, t) ==> |ts| < n
  {
    forall ts, w, a, t | HeaderSplit(pre, ts, w, a, t)
      ensures |ts| < n
    {
      HeaderSplitAt(pre, ts, w, a, t);
    }
  }

  /** The text after group 1's closing bracket is a split of the tail. */
  lemma HeaderSplitTail(pre: string, ts: string, w: string, a: string, t: string)
    requires HeaderSplit(pre, ts, w, a, t)
    ensures |pre| >= |ts| + 3 && pre[|ts| + 1] == ']'
    ensures TailSplit(pre[|ts| + 2..], w, a, t)
  {
    assert pre == "[" + ts + "]" + (w + a + ":" + t);
  }

  /** A split whose group 1 has `n` characters has a first `\s*` no longer than the matcher's. */
  lemma SameGroupShorterRun(pre: string, n: nat, ts: string, w: string, a: string, t: string)
    requires HeaderSplit(pre, ts, w, a, t) && |ts| == n
    ensures MatchTail(pre[n + 2..]).Some?
    ensures var rest := pre[n + 2..];
            |w| <= LeadingWhitespace(rest[..TrailingStart(rest) - 1])
  {
    HeaderSplitTail(pre, ts, w, a, t);
    TailShape(pre[n + 2..], w, a, t);
  }

  lemma MatchFromHit(pre: string, n: nat)
    requires 1 <= n && !GroupBlocked(pre, n) && pre[0] == '[' && NoLineTerminator(pre[1..n + 1])
    requires pre[n + 1] == ']' && MatchTail(pre[n + 2..]).Some?
    ensures BestFrom(pre, n, pre[1..n + 1], MatchTail(pre[n + 2..]).value)
  {
    var rest := pre[n + 2..];
    var ts, author := pre[1..n + 1], MatchTail(rest).value;
    var p := TrailingStart(rest) - 1;
    TailSound(rest);
    var w, t := rest[..LeadingWhitespace(rest[..p])], rest[p + 1..];
    HeaderSplitFrom(pre, n, w, author, t);
    forall ts', w', a', t' | HeaderSplit(pre, ts', w', a', t') && |ts'| >= n
      ensures |ts| < |ts'| || (|ts'| == |ts| && |w'| <= |w|)
    {
      if |ts'| == n {
        SameGroupShorterRun(pre, n, ts', w', a', t');
      }
    }
  }

  lemma MatchFromMiss(pre: string, n: nat)
    requires 1 <= n && !GroupBlocked(pre, n)
    requires !(pre[n + 1] == ']' && MatchTail(pre[n + 2..]).Some?)
    ensures forall ts, w, a, t :: HeaderSplit(pre, ts, w, a, t) ==> |ts| != n
  {
    forall ts, w, a, t | HeaderSplit(pre, ts, w, a, t)
      ensures |ts| != n
    {
      if |ts| == n {
        HeaderSplitTail(pre, ts, w, a, t);
        SameGroupShorterRun(pre, n, ts, w, a, t);
      }
    }
  }

  lemma BestFromWiden(pre: string, n: nat, ts: string, author: string)
    requires BestFrom(pre, n + 1, ts, author)
    requires forall ts', w', a', t' :: HeaderSplit(pre, ts', w', a', t') ==> |ts'| != n
    ensures BestFrom(pre, n, ts, author)
  {
    var w, t :| && HeaderSplit(pre, ts, w, author, t)
                && forall ts', w', a', t' ::
                     HeaderSplit(pre, ts', w', a', t') && |ts'| >= n + 1 ==> |ts| < |ts'| || (|ts'| == |ts| && |w'| <= |w|);
    assert HeaderSplit(pre, ts, w, author, t);
  }

  lemma {:induction false} MatchFromCorrect(pre: string, n: nat)
    requires 1 <= n && |pre| > 0 && pre[0] == '[' && n <= |pre| && NoLineTerminator(pre[1..n])
    ensures MatchFrom(pre, n).None? ==>
              forall ts, w, a, t :: HeaderSplit(pre, ts, w, a, t) ==> |ts| < n
    ensures MatchFrom(pre, n).Some? ==>
              && |MatchFrom(pre, n).value.0| >= n
              && BestFrom(pre, n, MatchFrom(pre, n).value.0, MatchFrom(pre, n).value.1)
    decreases |pre| - n
  {
    if GroupBlocked(pre, n) {
      MatchFromBlocked(pre, n);
    } else {
      assert NoLineTerminator(pre[1..n + 1]) by {
        assert pre[1..n + 1] == pre[1..n] + [pre[n]];
      }
      if pre[n + 1] == ']' && MatchTail(pre[n + 2..]).Some? {
        MatchFromHit(pre, n);
      } else {
        MatchFromMiss(pre, n);
        MatchFromCorrect(pre, n + 1);
        if MatchFrom(pre, n).Some? {
          BestFromWiden(pre, n, MatchFrom(pre, n).value.0, MatchFrom(pre, n).value.1);
        }
      }
    }
  }

  /** The matcher reports a match exactly when the regular expression matches, and then the groups a backtracking engine would report. */
  lemma MatchHeaderCorrect(pre: string)
    ensures MatchHeader(pre).None? <==> !HeaderMatches(pre)
    ensures MatchHeader(pre).Some? ==> PreferredSplit(pre, MatchHeader(pre).value.0, MatchHeader(pre).value.1)
  {
    HeaderStartsWithBracket(pre);
    if |pre| > 0 && pre[0] == '[' {
      MatchFromCorrect(pre, 1);
    }
  }

  // ---------------------------------------------------------------------------
  // Rows to messages
  // ---------------------------------------------------------------------------

  /** The header string the script parses: the attribute, or `''` when it is missing. */
  function Header(c: Container): string {
    if c.prePlainText.Some? then c.prePlainText.value else ""
  }

  /** The message one container yields. */
  function ReadContainer(c: Container): ChatMessage {
    var direction := if c.hasMessageOut then Outgoing else Incoming;
    var text := if c.span.Some? then c.span.value else "";
    match MatchHeader(Header(c))
    case Some((timestamp, author)) => ChatMessage(direction, author, Some(timestamp), text)
    case None => ChatMessage(direction, if c.hasMessageOut then OwnAuthor else "", Some(""), text)
  }

  /**
    Direction is outgoing exactly when `.message-out` is present; text is the
    span's or empty; a matching header gives the regular expression's groups
    1 and 2, a missing or non-matching one an empty timestamp and `You` or
    `''` as author.
   */
  lemma ReadContainerCorrect(c: Container)
    ensures ReadContainer(c).direction == Outgoing <==> c.hasMessageOut
    ensures ReadContainer(c).text == (if c.span.Some? then c.span.value else "")
    ensures HeaderMatches(Header(c)) ==>
              && ReadContainer(c).timestamp.Some?
              && PreferredSplit(Header(c), ReadContainer(c).timestamp.value, ReadContainer(c).author)
    ensures !HeaderMatches(Header(c)) ==>
              && ReadContainer(c).timestamp == Some("")
              && ReadContainer(c).author == (if c.hasMessageOut then OwnAuthor else "")
  {
    MatchHeaderCorrect(Header(c));
  }

  /** The containers of the rows that have one, in row order. */
  function Containers(rows: seq<Row>): seq<Container> {
    if rows == [] then []
    else
      var last := rows[|rows| - 1];
      Containers(rows[..|rows| - 1]) + (if last.container.Some? then [last.container.value] else [])
  }

  /** What the scraper returns for `rows`: one message per row with a container, in row order. */
  function Messages(rows: seq<Row>): seq<ChatMessage> {
    var cs := Containers(rows);
    seq(|cs|, k requires 0 <= k < |cs| => ReadContainer(cs[k]))
  }

  lemma {:induction false} ContainersAppend(a: seq<Row>, b: seq<Row>)
    ensures Containers(a + b) == Containers(a) + Containers(b)
    decreases |b|
  {
    if b != [] {
      var b' := b[..|b| - 1];
      assert (a + b)[..|a + b| - 1] == a + b';
      ContainersAppend(a, b');
    } else {
      assert a + b == a;
    }
  }

  /** Scraping distributes over the rows: rows are read independently and in order. */
  lemma MessagesAppend(a: seq<Row>, b: seq<Row>)
    ensures Messages(a + b) == Messages(a) + Messages(b)
  {
    ContainersAppend(a, b);
    var ca, cb := Containers(a), Containers(b);
    var l, r1, r2 := Messages(a + b), Messages(a), Messages(b);
    assert |l| == |r1| + |r2|;
    forall k | 0 <= k < |l|
      ensures l[k] == (r1 + r2)[k]
    {
      if k < |r1| {
        assert l[k] == ReadContainer(ca[k]);
      } else {
        assert l[k] == ReadContainer(cb[k - |r1|]);
      }
    }
  }

  /** A row without a container yields nothing, a row with one yields exactly its message. */
  lemma MessagesOfRow(r: Row)
    ensures r.container.None? ==> Messages([r]) == []
    ensures r.container.Some? ==> Messages([r]) == [ReadContainer(r.container.value)]
  {
    assert [r][..0] == [];
    var cs := Containers([r]);
    assert cs == Containers([]) + (if r.container.Some? then [r.container.value] else []);
    assert |Messages([r])| == |cs|;
    assert r.container.Some? ==> Messages([r])[0] == ReadContainer(r.container.value);
  }

  /** `grabWhatsAppMessages`: one pass over the rows, skipping those without a container. */
  method GrabWhatsAppMessages(rows: seq<Row>) returns (msgs: seq<ChatMessage>)
    ensures msgs == Messages(rows)
  {
    msgs := [];
    for i := 0 to |rows|
      invariant msgs == Messages(rows[..i])
    {
      assert rows[..i + 1][..i] == rows[..i];
      var container := rows[i].container;
      if container.None? {
        continue;
      }
      var isOut := container.value.hasMessageOut;
      var direction := if isOut then Outgoing else Incoming;
      var text := if container.value.span.Some? then container.value.span.value else "";
      var pre := if container.value.prePlainText.Some? then container.value.prePlainText.value else "";
      var matched := MatchHeader(pre);
      var timestamp := if matched.Some? then matched.value.0 else "";
      var author := if matched.Some? then matched.value.1 else if isOut then OwnAuthor else "";
      msgs := msgs + [ChatMessage(direction, author, Some(timestamp), text)];
    }
    assert rows[..|rows|] == rows;
  }

  /** The runtime-message listener: only `getChatMessages` is answered, with the scraped rows. */
  method OnMessage(request: Request, rows: seq<Row>) returns (response: Option<Response>)
    ensures response.Some? <==> request.action == Some(GetChatMessages)
    ensures response.Some? ==> response.value.messages == Messages(rows)
  {
    response := None;
    if request.action == Some(GetChatMessages) {
      var messages := GrabWhatsAppMessages(rows);
      response := Some(Response(messages));
    }
  }
}
