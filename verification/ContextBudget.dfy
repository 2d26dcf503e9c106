/** Fitting a message list into a character budget, and the text truncation it uses. */
module ContextBudget {
  import opened Wrappers

  const OMISSION_MARKER := "..."
  const MAX_CONTEXT_CHARS := 64000

  /** White space as text splitting sees it. */
  predicate IsSpace(c: char) {
    || '\t' <= c <= '\r' || '\U{1C}' <= c <= ' ' || c == '\U{85}' || c == '\U{A0}' || c == '\U{1680}'
    || '\U{2000}' <= c <= '\U{200A}' || c == '\U{2028}' || c == '\U{2029}' || c == '\U{202F}'
    || c == '\U{205F}' || c == '\U{3000}'
  }

  /** The 29 code points that count as white space. */
  lemma SpacesAre(c: char)
    ensures IsSpace(c) <==>
      c as int in {9, 10, 11, 12, 13, 28, 29, 30, 31, 32, 133, 160, 5760,
                   8192, 8193, 8194, 8195, 8196, 8197, 8198, 8199, 8200, 8201, 8202,
                   8232, 8233, 8239, 8287, 12288}
  {
  }

  /** The text without white space at its ends. */
  function Strip(text: string): (r: string) {
    if text == "" then ""
    else if IsSpace(text[0]) then Strip(text[1..])
    else if IsSpace(text[|text| - 1]) then Strip(text[..|text| - 1])
    else text
  }

  predicate AllSpace(text: string) {
    forall i :: 0 <= i < |text| ==> IsSpace(text[i])
  }

  /** The stretch from the first to the last character that is not white space; empty if there is none. */
  ghost predicate IsTrimmed(text: string, start: nat, end: nat) {
    && start <= end <= |text| && AllSpace(text[..start]) && AllSpace(text[end..])
    && (start < end ==> !IsSpace(text[start]) && !IsSpace(text[end - 1]))
  }

  lemma SpaceInFront(c: char, text: string)
    requires IsSpace(c) && AllSpace(text)
    ensures AllSpace([c] + text) && AllSpace(text + [c])
  {
    var front, back := [c] + text, text + [c];
    forall i | 0 <= i < |front| ensures IsSpace(front[i]) {
      assert front[i] == if i == 0 then c else text[i - 1];
      assert i > 0 ==> IsSpace(text[i - 1]);
    }
    forall i | 0 <= i < |back| ensures IsSpace(back[i]) {
      assert back[i] == if i == |text| then c else text[i];
      assert i < |text| ==> IsSpace(text[i]);
    }
  }

  lemma TrimFromLeft(text: string, start: nat, end: nat)
    requires text != "" && IsSpace(text[0]) && IsTrimmed(text[1..], start, end)
    ensures IsTrimmed(text, start + 1, end + 1) && text[start + 1..end + 1] == text[1..][start..end]
  {
    var rest := text[1..];
    SpaceInFront(text[0], rest[..start]);
    assert text[..start + 1] == [text[0]] + rest[..start];
    assert text[end + 1..] == rest[end..];
    ShiftedSlice(text, start, end);
    if start < end {
      assert text[start + 1] == rest[start] && text[(end + 1) - 1] == rest[end - 1];
    }
  }

  lemma ShiftedSlice(text: string, start: nat, end: nat)
    requires text != "" && start <= end < |text|
    ensures text[start + 1..end + 1] == text[1..][start..end]
  {
    var long, short := text[start + 1..end + 1], text[1..][start..end];
    forall i | 0 <= i < end - start ensures long[i] == short[i] {
      assert long[i] == text[start + 1 + i] == text[1..][start + i] == short[i];
    }
  }

  lemma TrimFromRight(text: string, start: nat, end: nat)
    requires text != "" && IsSpace(text[|text| - 1]) && IsTrimmed(text[..|text| - 1], start, end)
    ensures IsTrimmed(text, start, end) && text[start..end] == text[..|text| - 1][start..end]
  {
    var init := text[..|text| - 1];
    SpaceInFront(text[|text| - 1], init[end..]);
    assert text[..start] == init[..start];
    assert text[end..] == init[end..] + [text[|text| - 1]];
    assert start < end ==> text[start] == init[start] && text[end - 1] == init[end - 1];
  }

  lemma {:induction false} StripTrims(text: string) returns (start: nat, end: nat)
    ensures IsTrimmed(text, start, end) && Strip(text) == text[start..end]
    decreases |text|
  {
    if text == "" {
      start, end := 0, 0;
    } else if IsSpace(text[0]) {
      start, end := StripTrims(text[1..]);
      TrimFromLeft(text, start, end);
      start, end := start + 1, end + 1;
    } else if IsSpace(text[|text| - 1]) {
      start, end := StripTrims(text[..|text| - 1]);
      TrimFromRight(text, start, end);
    } else {
      start, end := 0, |text|;
      assert text[0..|text|] == text;
    }
  }

  lemma Outside(text: string, start: nat, end: nat)
    requires IsTrimmed(text, start, end)
    ensures forall i :: 0 <= i < start || end <= i < |text| ==> IsSpace(text[i])
  {
    forall i | 0 <= i < start ensures IsSpace(text[i]) {
      assert text[i] == text[..start][i];
    }
    forall i | end <= i < |text| ensures IsSpace(text[i]) {
      assert text[i] == text[end..][i - end];
    }
  }

  lemma OneTrimming(text: string, start: nat, end: nat, start': nat, end': nat)
    requires IsTrimmed(text, start, end) && IsTrimmed(text, start', end')
    ensures text[start..end] == text[start'..end']
  {
    Outside(text, start, end);
    Outside(text, start', end');
    assert start < end <==> start' < end';
    assert start < end ==> start == start' && end == end';
  }

  /** Stripping is exactly trimming. */
  lemma StripExactly(text: string, start: nat, end: nat)
    requires IsTrimmed(text, start, end)
    ensures Strip(text) == text[start..end]
  {
    var i, j := StripTrims(text);
    OneTrimming(text, i, j, start, end);
  }

  /** Length of the leading run of `text` that is not white space. */
  function WordLength(text: string): (n: nat)
    ensures n <= |text|
  {
    if text == "" || IsSpace(text[0]) then 0 else 1 + WordLength(text[1..])
  }

  lemma {:induction false} WordEnds(text: string)
    ensures forall i :: 0 <= i < WordLength(text) ==> !IsSpace(text[i])
    ensures WordLength(text) < |text| ==> IsSpace(text[WordLength(text)])
    decreases |text|
  {
    if text != "" && !IsSpace(text[0]) {
      WordEnds(text[1..]);
      forall i | 0 < i < WordLength(text) ensures !IsSpace(text[i]) {
        assert text[i] == text[1..][i - 1];
      }
    }
  }

  /** The text split at white space. */
  function Words(text: string): (words: seq<string>)
    decreases |text|
  {
    if text == "" then []
    else if IsSpace(text[0]) then Words(text[1..])
    else [text[..WordLength(text)]] + Words(text[WordLength(text)..])
  }

  predicate IsWord(w: string) {
    w != "" && forall i :: 0 <= i < |w| ==> !IsSpace(w[i])
  }

  predicate AreWords(words: seq<string>) {
    forall k :: 0 <= k < |words| ==> IsWord(words[k])
  }

  lemma {:induction false} WordsAreWords(text: string)
    ensures AreWords(Words(text))
    decreases |text|
  {
    if text != "" {
      if IsSpace(text[0]) {
        WordsAreWords(text[1..]);
      } else {
        WordEnds(text);
        assert IsWord(text[..WordLength(text)]);
        WordsAreWords(text[WordLength(text)..]);
      }
    }
  }

  // ---- Which words -------------------------------------------------------------------------------

  /** The gaps and the words of a text, in turn; one gap more than words. */
  function Weave(gaps: seq<string>, words: seq<string>): string
    requires |gaps| == |words| + 1
    decreases |words|
  {
    if words == [] then gaps[0] else gaps[0] + words[0] + Weave(gaps[1..], words[1..])
  }

  /** The words are the runs of characters that are not white space, whatever white space lies between. */
  ghost predicate Separates(gaps: seq<string>, words: seq<string>, text: string) {
    && |gaps| == |words| + 1 && Weave(gaps, words) == text && AreWords(words)
    && (forall k :: 0 <= k < |gaps| ==> AllSpace(gaps[k]))
    && (forall k :: 0 < k < |words| ==> gaps[k] != "")
  }

  lemma GapGrows(text: string, gaps: seq<string>, words: seq<string>) returns (wider: seq<string>)
    requires text != "" && IsSpace(text[0]) && Separates(gaps, words, text[1..])
    ensures Separates(wider, words, text)
  {
    wider := [[text[0]] + gaps[0]] + gaps[1..];
    assert wider[1..] == gaps[1..];
    assert text == [text[0]] + text[1..];
    if words == [] {
      assert Weave(wider, words) == [text[0]] + Weave(gaps, words);
    } else {
      assert Weave(wider, words) == ([text[0]] + gaps[0]) + words[0] + Weave(gaps[1..], words[1..]);
      assert Weave(wider, words) == [text[0]] + (gaps[0] + words[0] + Weave(gaps[1..], words[1..]));
    }
  }

  lemma WordInFront(text: string, w: string, rest: string, gaps: seq<string>, words: seq<string>)
    returns (all: seq<string>)
    requires text == w + rest && IsWord(w) && Separates(gaps, words, rest)
    requires words != [] ==> gaps[0] != ""
    ensures Separates(all, [w] + words, text)
  {
    all := [""] + gaps;
    assert all[1..] == gaps && ([w] + words)[1..] == words;
    assert "" + w + rest == text;
    forall k | 0 < k < |[w] + words| ensures all[k] != "" {
      assert all[k] == gaps[k - 1];
    }
  }

  lemma NoGapNoSpace(gaps: seq<string>, words: seq<string>, text: string)
    requires Separates(gaps, words, text) && words != [] && text != ""
    ensures gaps[0] == "" ==> !IsSpace(text[0])
  {
    if gaps[0] == "" {
      assert IsWord(words[0]);
      assert text == "" + words[0] + Weave(gaps[1..], words[1..]);
      assert text[0] == words[0][0];
    }
  }

  /** Splitting finds exactly those words. */
  lemma {:induction false} WordsAreRuns(text: string) returns (gaps: seq<string>)
    ensures Separates(gaps, Words(text), text)
    decreases |text|
  {
    if text == "" {
      gaps := [""];
    } else if IsSpace(text[0]) {
      var inner := WordsAreRuns(text[1..]);
      gaps := GapGrows(text, inner, Words(text[1..]));
    } else {
      var n := WordLength(text);
      WordEnds(text);
      var rest := text[n..];
      var inner := WordsAreRuns(rest);
      if Words(rest) != [] {
        assert rest != "" && IsSpace(rest[0]);
        NoGapNoSpace(inner, Words(rest), rest);
      }
      assert IsWord(text[..n]) && text == text[..n] + rest;
      gaps := WordInFront(text, text[..n], rest, inner, Words(rest));
    }
  }

  /** The words joined with single blanks. */
  function Join(words: seq<string>): string {
    if words == [] then ""
    else if |words| == 1 then words[0]
    else words[0] + " " + Join(words[1..])
  }

  function Normalize(text: string): string { Join(Words(text)) }

  function Truncate(text: string, limit: int): string {
    var normal := Normalize(text);
    if normal == "" || limit <= 0 then ""
    else if |normal| <= limit then normal
    else if limit <= |OMISSION_MARKER| then normal[..limit]
    else normal[..limit - |OMISSION_MARKER|] + OMISSION_MARKER
  }

  // ---- Normal texts ---------------------------------------------------------------------------

  /** No white space at either end, and inside only single blanks. */
  predicate Normal(text: string) {
    text == "" ||
    (&& !IsSpace(text[0]) && !IsSpace(text[|text| - 1])
     && (forall i :: 0 <= i < |text| && IsSpace(text[i]) ==> text[i] == ' ')
     && (forall i :: 0 < i < |text| && IsSpace(text[i]) ==> !IsSpace(text[i - 1])))
  }

  lemma {:induction false} WordLengthOfWord(w: string, rest: string)
    requires forall i :: 0 <= i < |w| ==> !IsSpace(w[i])
    requires rest == "" || IsSpace(rest[0])
    ensures WordLength(w + rest) == |w|
    decreases |w|
  {
    if w == "" {
      assert w + rest == rest;
    } else {
      assert (w + rest)[1..] == w[1..] + rest;
      WordLengthOfWord(w[1..], rest);
    }
  }

  /** Round trip: splitting what was joined gives the words back. */
  lemma {:induction false} WordsOfJoin(words: seq<string>)
    requires AreWords(words)
    ensures Words(Join(words)) == words
    decreases |words|
  {
    if |words| == 1 {
      assert IsWord(words[0]);
      assert words[0] + "" == words[0];
      WordLengthOfWord(words[0], "");
      assert words[0][..|words[0]|] == words[0];
    } else if |words| > 1 {
      var w, rest := words[0], " " + Join(words[1..]);
      var text := w + rest;
      assert IsWord(w);
      assert Join(words) == text by { assert w + " " + Join(words[1..]) == text; }
      WordLengthOfWord(w, rest);
      WordsOfJoin(words[1..]);
      assert text[..|w|] == w && text[|w|..] == rest;
      assert rest[1..] == Join(words[1..]);
    }
  }

  lemma {:induction false} JoinIsNormal(words: seq<string>)
    requires AreWords(words)
    ensures Normal(Join(words)) && (words != [] ==> Join(words) != "")
    decreases |words|
  {
    if |words| == 1 {
      assert IsWord(words[0]);
    } else if |words| > 1 {
      JoinIsNormal(words[1..]);
      assert IsWord(words[0]);
      var text, w, rest := Join(words), words[0], Join(words[1..]);
      assert text == w + " " + rest;
      assert forall i :: 0 <= i < |w| ==> text[i] == w[i];
      assert forall i :: |w| < i < |text| ==> text[i] == rest[i - |w| - 1];
    }
  }

  lemma RestIsNormal(text: string, n: nat)
    requires Normal(text) && n < |text| && IsSpace(text[n])
    ensures n + 1 < |text| && text[n] == ' ' && !IsSpace(text[n + 1]) && Normal(text[n + 1..])
  {
    var rest := text[n + 1..];
    assert forall i :: 0 <= i < |rest| ==> rest[i] == text[n + 1 + i];
  }

  lemma JoinFirst(w: string, rest: seq<string>)
    requires rest != []
    ensures Join([w] + rest) == w + " " + Join(rest)
  {
    assert ([w] + rest)[1..] == rest;
  }

  lemma OneWord(text: string)
    requires text != "" && WordLength(text) == |text|
    ensures Normalize(text) == text
  {
    assert text[|text|..] == "" && text[..|text|] == text;
    assert Words(text) == [text];
  }

  /** A text of one word, a blank and a normal rest normalizes word by word. */
  lemma NormalizeByWord(text: string, n: nat)
    requires 0 < n == WordLength(text) && n + 1 < |text| && !IsSpace(text[n + 1])
    ensures Normalize(text) == text[..n] + " " + Normalize(text[n + 1..])
  {
    WordsAfterBlank(text, n);
    JoinFirst(text[..n], Words(text[n + 1..]));
  }

  lemma SplitAtBlank(text: string, n: nat)
    requires n < |text| && text[n] == ' '
    ensures text[..n] + " " + text[n + 1..] == text
  {
  }

  lemma BlankAfterWord(text: string, n: nat)
    requires text != "" && !IsSpace(text[0]) && n == WordLength(text)
    ensures n > 0 && (n < |text| ==> IsSpace(text[n]))
  {
    WordEnds(text);
  }

  /** A normal text is left alone. */
  lemma {:induction false} NormalIsFixed(text: string)
    requires Normal(text)
    ensures Normalize(text) == text
    decreases |text|
  {
    if text != "" {
      var n := WordLength(text);
      if n == |text| {
        OneWord(text);
      } else {
        BlankAfterWord(text, n);
        RestIsNormal(text, n);
        var rest := text[n + 1..];
        NormalIsFixed(rest);
        NormalizeByWord(text, n);
        SplitAtBlank(text, n);
      }
    }
  }

  lemma WordsAfterBlank(text: string, n: nat)
    requires 0 < n < |text| && n == WordLength(text)
    ensures Words(text) == [text[..n]] + Words(text[n + 1..])
  {
    WordEnds(text);
    var rest := text[n..];
    assert rest[0] == text[n] && rest[1..] == text[n + 1..];
    assert Words(rest) == Words(rest[1..]);
  }

  lemma {:induction false} NormalizeShrinks(text: string)
    ensures |Normalize(text)| <= |text|
    decreases |text|
  {
    if text != "" {
      if IsSpace(text[0]) {
        NormalizeShrinks(text[1..]);
      } else {
        var n := WordLength(text);
        if n < |text| {
          NormalizeShrinks(text[n + 1..]);
          WordsAfterBlank(text, n);
          assert ([text[..n]] + Words(text[n + 1..]))[1..] == Words(text[n + 1..]);
        } else {
          assert text[n..] == "" && text[..n] == text;
        }
      }
    }
  }

  lemma NormalizeIsNormal(text: string)
    ensures Normal(Normalize(text))
    ensures Normalize(Normalize(text)) == Normalize(text)
  {
    WordsAreWords(text);
    JoinIsNormal(Words(text));
    WordsOfJoin(Words(text));
  }

  // ---- Truncation ------------------------------------------------------------------------------

  lemma TruncateWithinLimit(text: string, limit: int)
    ensures |Truncate(text, limit)| <= Max(limit, 0)
    ensures |Normalize(text)| <= limit ==> Truncate(text, limit) == Normalize(text)
  {
  }

  /** A text that is too long is cut: to its first characters, and from four on with three dots at the end. */
  lemma TruncateIsPrefix(text: string, limit: int)
    requires 0 < limit < |Normalize(text)|
    ensures |Truncate(text, limit)| == limit
    ensures limit <= 3 ==> Truncate(text, limit) <= Normalize(text)
    ensures limit > 3 ==>
      Truncate(text, limit)[..limit - 3] <= Normalize(text) && Truncate(text, limit)[limit - 3..] == "..."
  {
    if limit > 3 {
      assert Truncate(text, limit) == Normalize(text)[..limit - 3] + "...";
    }
  }

  /** A clipped message keeps its role, and its text is the truncation to the room there was, unless that is empty. */
  lemma ClipKeepsRole(message: Message, room: nat)
    ensures var clipped := ClipTo(message, room);
            if room == 0 || Normalize(message.content) == "" then clipped == []
            else clipped == [Message(message.role, Truncate(message.content, room))] && clipped[0].content != ""
  {
  }

  /**
   Truncating twice is truncating once, except exactly when a limit of at most three cuts the text
   right after a blank.
   */
  lemma TruncateTwice(text: string, limit: int)
    ensures Truncate(Truncate(text, limit), limit) == Truncate(text, limit)
            <==> !(0 < limit <= 3 && limit < |Normalize(text)| && IsSpace(Normalize(text)[limit - 1]))
  {
    var normal, cut := Normalize(text), Truncate(text, limit);
    NormalizeIsNormal(text);
    NormalizeIsNormal(cut);
    NormalizeShrinks(cut);
    if 0 < limit < |normal| {
      CutIsNormal(normal, limit);
    }
    if Normal(cut) {
      NormalIsFixed(cut);
    }
  }

  lemma CutIsNormal(normal: string, limit: nat)
    requires Normal(normal) && 0 < limit < |normal|
    ensures limit <= 3 ==> (Normal(normal[..limit]) <==> !IsSpace(normal[limit - 1]))
    ensures limit > 3 ==> Normal(normal[..limit - 3] + OMISSION_MARKER)
  {
    if limit > 3 {
      var cut := normal[..limit - 3] + OMISSION_MARKER;
      assert forall i :: 0 <= i < limit - 3 ==> cut[i] == normal[i];
      assert forall i :: limit - 3 <= i < limit ==> cut[i] == '.';
    }
  }

  /** The limit for which it fails: "a b" at two characters becomes "a " and then "a". */
  lemma TruncateTwiceFails()
    ensures Truncate("a b", 2) == "a " && Truncate("a ", 2) == "a"
  {
    assert Words("a b") == ["a", "b"] by {
      assert "a b"[1..] == " b" && " b"[1..] == "b" && "b"[1..] == "";
      assert WordLength("a b") == 1 && WordLength("b") == 1;
      assert "a b"[..1] == "a" && "b"[..1] == "b";
    }
    assert Words("a ") == ["a"] by {
      assert "a "[1..] == " " && " "[1..] == "";
      assert WordLength("a ") == 1;
      assert "a "[..1] == "a";
    }
    assert Join(["b"]) == "b" && Join(["a"]) == "a";
    assert ["a", "b"][1..] == ["b"];
    assert Normalize("a b") == "a b";
    assert "a b"[..2] == "a ";
  }

  // ---- Budget fit --------------------------------------------------------------------------------

  datatype Message = Message(role: string, content: string)

  function Chars(messages: seq<Message>): nat {
    if messages == [] then 0 else |messages[0].content| + Chars(messages[1..])
  }

  function SafeMax(maxChars: int): (budget: nat)
    ensures 0 <= maxChars <= 64000 ==> budget == maxChars
    ensures maxChars < 0 ==> budget == 0
    ensures maxChars > 64000 ==> budget == 64000
  {
    Max(Min(maxChars, MAX_CONTEXT_CHARS), 0)
  }

  /** The messages after index `i` leave room, so the walk back from the newest reaches message `i`. */
  predicate Reached(messages: seq<Message>, i: nat, budget: nat)
    requires i < |messages|
  {
    Chars(messages[i + 1..]) < budget
  }

  /** Message `i` is kept verbatim. */
  predicate Verbatim(messages: seq<Message>, i: nat, budget: nat)
    requires i < |messages|
  {
    Reached(messages, i, budget) && Chars(messages[i..]) <= budget
  }

  /** The message cut down to `room` characters; nothing if no text is left. */
  function ClipTo(message: Message, room: nat): (clipped: seq<Message>) {
    var text := Truncate(message.content, room);
    if text == "" then [] else [message.(content := text)]
  }

  function Clipped(messages: seq<Message>, i: nat, budget: nat): seq<Message>
    requires i < |messages| && Reached(messages, i, budget)
  {
    ClipTo(messages[i], budget - Chars(messages[i + 1..]))
  }

  /** Index of the first message kept verbatim: the walk back from `k` stops there. */
  function KeptFrom(messages: seq<Message>, k: nat, budget: nat): (start: nat)
    requires k <= |messages|
    ensures start <= k
  {
    if k > 0 && Verbatim(messages, k - 1, budget) then KeptFrom(messages, k - 1, budget) else k
  }

  function FitFrom(messages: seq<Message>, start: nat, budget: nat): seq<Message>
    requires start <= |messages|
  {
    (if start > 0 && Reached(messages, start - 1, budget) then Clipped(messages, start - 1, budget) else [])
    + messages[start..]
  }

  function Fit(messages: seq<Message>, maxChars: int): seq<Message> {
    FitFrom(messages, KeptFrom(messages, |messages|, SafeMax(maxChars)), SafeMax(maxChars))
  }

  lemma {:induction false} CharsConcat(a: seq<Message>, b: seq<Message>)
    ensures Chars(a + b) == Chars(a) + Chars(b)
    decreases |a|
  {
    if a == [] {
      assert a + b == b;
    } else {
      assert (a + b)[1..] == a[1..] + b;
      CharsConcat(a[1..], b);
    }
  }

  lemma CharsFrom(messages: seq<Message>, i: nat, j: nat)
    requires i <= j <= |messages|
    ensures Chars(messages[i..]) >= Chars(messages[j..])
    ensures i < j ==> Chars(messages[i..]) == |messages[i].content| + Chars(messages[i + 1..])
  {
    assert messages[i..] == messages[i..j] + messages[j..];
    CharsConcat(messages[i..j], messages[j..]);
    if i < j {
      assert messages[i..][1..] == messages[i + 1..];
    }
  }

  lemma {:induction false} KeptFromVerbatim(messages: seq<Message>, k: nat, budget: nat)
    requires k <= |messages|
    ensures var start := KeptFrom(messages, k, budget);
            && (start < k ==> Verbatim(messages, start, budget))
            && (start > 0 ==> !Verbatim(messages, start - 1, budget))
    decreases k
  {
    if k > 0 && Verbatim(messages, k - 1, budget) {
      KeptFromVerbatim(messages, k - 1, budget);
      assert KeptFrom(messages, k, budget) == KeptFrom(messages, k - 1, budget);
    } else {
      assert KeptFrom(messages, k, budget) == k;
    }
  }

  lemma NewerFitsToo(messages: seq<Message>, i: nat, j: nat, budget: nat)
    requires i <= j < |messages| && Verbatim(messages, i, budget)
    ensures Verbatim(messages, j, budget)
  {
    CharsFrom(messages, i + 1, j + 1);
    CharsFrom(messages, i, j);
  }

  /** A message is kept verbatim exactly when it and all newer ones fit, the newer ones with room to spare. */
  lemma KeptExactly(messages: seq<Message>, budget: nat, i: nat)
    requires i < |messages|
    ensures KeptFrom(messages, |messages|, budget) <= i <==> Verbatim(messages, i, budget)
  {
    var start := KeptFrom(messages, |messages|, budget);
    KeptFromVerbatim(messages, |messages|, budget);
    if start <= i {
      NewerFitsToo(messages, start, i, budget);
    } else if Verbatim(messages, i, budget) {
      NewerFitsToo(messages, i, start - 1, budget);
    }
  }

  /** The budget still holds when the first message that does not fit is clipped. */
  lemma ClippedFits(messages: seq<Message>, i: nat, budget: nat)
    requires i < |messages| && Reached(messages, i, budget) && !Verbatim(messages, i, budget)
    ensures var clipped := Clipped(messages, i, budget);
            && Chars(clipped) + Chars(messages[i + 1..]) <= budget
            && (clipped == [] || (|clipped| == 1 && clipped[0].role == messages[i].role
                                  && |clipped[0].content| < |messages[i].content|))
  {
    TruncateWithinLimit(messages[i].content, budget - Chars(messages[i + 1..]));
    CharsFrom(messages, i, i + 1);
    var clipped := Clipped(messages, i, budget);
    if clipped != [] {
      assert clipped[1..] == [];
    }
  }

  /** Sound: the kept characters never exceed the budget. */
  lemma FitIsWithinBudget(messages: seq<Message>, maxChars: int)
    ensures Chars(Fit(messages, maxChars)) <= SafeMax(maxChars)
  {
    var budget := SafeMax(maxChars);
    var start := KeptFrom(messages, |messages|, budget);
    KeptFromVerbatim(messages, |messages|, budget);
    assert start == |messages| ==> messages[start..] == [];
    if start > 0 && Reached(messages, start - 1, budget) {
      ClippedFits(messages, start - 1, budget);
      CharsConcat(Clipped(messages, start - 1, budget), messages[start..]);
    } else {
      assert [] + messages[start..] == messages[start..];
    }
  }

  /** A suffix of the input, before which stands at most one more message: the next older one, clipped. */
  predicate ClippedSuffix(messages: seq<Message>, fit: seq<Message>, start: nat) {
    && start <= |messages|
    && (fit == messages[start..]
        || (&& start > 0 && fit != [] && fit[1..] == messages[start..]
            && fit[0].role == messages[start - 1].role
            && |fit[0].content| < |messages[start - 1].content|))
  }

  /** The fit is a clipped suffix that keeps verbatim exactly the messages the budget reaches. */
  lemma FitIsGreedySuffix(messages: seq<Message>, maxChars: int)
    ensures var start := KeptFrom(messages, |messages|, SafeMax(maxChars));
            && ClippedSuffix(messages, Fit(messages, maxChars), start)
            && (forall i :: 0 <= i < |messages| ==>
                  (start <= i <==> Verbatim(messages, i, SafeMax(maxChars))))
  {
    var budget := SafeMax(maxChars);
    var start := KeptFrom(messages, |messages|, budget);
    forall i | 0 <= i < |messages| ensures start <= i <==> Verbatim(messages, i, budget) {
      KeptExactly(messages, budget, i);
    }
    if start > 0 && Reached(messages, start - 1, budget) {
      ClippedFits(messages, start - 1, budget);
    }
  }

  /** The newest message is kept as it is exactly when it fits a positive budget. */
  lemma NewestIsKept(messages: seq<Message>, maxChars: int)
    requires messages != []
    ensures var newest, fit := messages[|messages| - 1], Fit(messages, maxChars);
            (fit != [] && fit[|fit| - 1] == newest)
            <==> 0 < SafeMax(maxChars) && |newest.content| <= SafeMax(maxChars)
  {
    var budget, last := SafeMax(maxChars), |messages| - 1;
    KeptExactly(messages, budget, last);
    assert messages[last + 1..] == [];
    CharsFrom(messages, last, last + 1);
    if KeptFrom(messages, |messages|, budget) == |messages| && Reached(messages, last, budget) {
      ClippedFits(messages, last, budget);
    }
  }

  /** The messages kept as they are, and how many older ones are left. */
  method KeepNewest(messages: seq<Message>, budget: nat) returns (kept: seq<Message>, used: nat, left: nat)
    ensures left == KeptFrom(messages, |messages|, budget)
    ensures kept == messages[left..] && used == Chars(kept)
  {
    kept, used, left := [], 0, |messages|;
    while left > 0
      invariant 0 <= left <= |messages|
      invariant kept == messages[left..] && used == Chars(kept) <= budget
      invariant KeptFrom(messages, |messages|, budget) == KeptFrom(messages, left, budget)
    {
      CharsFrom(messages, left - 1, left);
      var size := |messages[left - 1].content|;
      if budget <= used || size > budget - used {
        return;
      }
      left := left - 1;
      kept, used := [messages[left]] + kept, used + size;
      assert kept == messages[left..];
    }
  }

  method ClipMessage(message: Message, room: nat) returns (clipped: seq<Message>)
    ensures clipped == ClipTo(message, room)
  {
    var text := Truncate(message.content, room);
    clipped := [];
    if text != "" {
      clipped := [message.(content := text)];
    }
  }

  method AddClipped(messages: seq<Message>, left: nat, budget: nat, newest: seq<Message>, used: nat)
    returns (kept: seq<Message>)
    requires left <= |messages| && newest == messages[left..] && used == Chars(newest)
    ensures kept == FitFrom(messages, left, budget)
  {
    var clipped := [];
    if left > 0 && used < budget {
      clipped := ClipMessage(messages[left - 1], budget - used);
    }
    kept := clipped + newest;
  }

  method FitMessagesToCharBudget(messages: seq<Message>, maxChars: int) returns (kept: seq<Message>)
    ensures kept == Fit(messages, maxChars)
  {
    var budget := SafeMax(maxChars);
    var newest, used, left := KeepNewest(messages, budget);
    kept := AddClipped(messages, left, budget, newest, used);
  }
}
