/** Paging backwards through the messages of a session. */
module MessagePaging {
  import opened Wrappers

  datatype Message = Message(id: nat, messageId: string, createdAt: int)

  /** The order of the message queries: by creation time, then by row id. */
  predicate Before(a: Message, b: Message) {
    a.createdAt < b.createdAt || (a.createdAt == b.createdAt && a.id < b.id)
  }

  /** The messages of a session in query order; message ids are unique. */
  predicate Ordered(messages: seq<Message>) {
    && (forall i, j :: 0 <= i < j < |messages| ==>
          messages[i].createdAt < messages[j].createdAt
          || (messages[i].createdAt == messages[j].createdAt && messages[i].id < messages[j].id))
    && (forall i, j :: 0 <= i < j < |messages| ==> messages[i].messageId != messages[j].messageId)
  }

  /** Position of a message id, or the length when there is none. */
  function Position(messages: seq<Message>, messageId: string): (p: nat)
    ensures p <= |messages|
    ensures p < |messages| ==> messages[p].messageId == messageId
    ensures forall i :: 0 <= i < p ==> messages[i].messageId != messageId
  {
    if messages == [] || messages[0].messageId == messageId then 0 else 1 + Position(messages[1..], messageId)
  }

  /** The rows the `before` filter keeps. */
  function Older(messages: seq<Message>, pivot: Message): (older: seq<Message>) {
    if messages == [] then []
    else Older(messages[..|messages| - 1], pivot)
         + (if Before(messages[|messages| - 1], pivot) then [messages[|messages| - 1]] else [])
  }

  /** In query order the kept rows are the ones standing before the pivot. */
  lemma {:induction false} OlderIsPrefix(messages: seq<Message>, p: nat)
    requires Ordered(messages) && p < |messages|
    ensures Older(messages, messages[p]) == messages[..p]
    decreases |messages|
  {
    var pivot, init := messages[p], messages[..|messages| - 1];
    if p < |init| {
      OlderIsPrefix(init, p);
      assert init[..p] == messages[..p];
    } else {
      AllOlder(init, pivot);
    }
  }

  lemma {:induction false} AllOlder(messages: seq<Message>, pivot: Message)
    requires forall i :: 0 <= i < |messages| ==> Before(messages[i], pivot)
    ensures Older(messages, pivot) == messages
    decreases |messages|
  {
    if messages != [] {
      var init, last := messages[..|messages| - 1], messages[|messages| - 1];
      AllOlder(init, pivot);
      assert Older(messages, pivot) == Older(init, pivot) + [last];
      assert init + [last] == messages;
    }
  }

  /** A page holds at least one message and at most 500. */
  function PageLimit(limit: int): (size: nat)
    ensures 1 <= size <= 500
    ensures 1 <= limit <= 500 ==> size == limit
    ensures limit < 1 ==> size == 1
    ensures limit > 500 ==> size == 500
  {
    Max(Min(limit, 500), 1)
  }

  /** Descending rows after the offset, cut at the limit, turned around. */
  function LastPage(rows: seq<Message>, limit: int, offset: int): seq<Message> {
    var end := Max(|rows| - Max(offset, 0), 0);
    rows[Max(end - PageLimit(limit), 0)..end]
  }

  function FirstPage(rows: seq<Message>, limit: int, offset: int): seq<Message> {
    var start := Min(Max(offset, 0), |rows|);
    rows[start..Min(start + PageLimit(limit), |rows|)]
  }

  /** `list_messages`. */
  function ListMessages(messages: seq<Message>, limit: int, offset: int, before: string): seq<Message> {
    if before == "" then FirstPage(messages, limit, offset)
    else
      var p := Position(messages, before);
      if p == |messages| then [] else LastPage(Older(messages, messages[p]), limit, offset)
  }

  /** `count_messages`. */
  function CountMessages(messages: seq<Message>, before: string): nat {
    if before == "" then |messages|
    else
      var p := Position(messages, before);
      if p == |messages| then 0 else |Older(messages, messages[p])|
  }

  /** The page flag of the message route. */
  predicate HasMore(messages: seq<Message>, limit: int, offset: nat, before: string) {
    offset + |ListMessages(messages, limit, offset, before)| < CountMessages(messages, before)
  }

  // ---- Following `before` from page to page ----------------------------------------------------

  lemma PositionOf(messages: seq<Message>, p: nat)
    requires Ordered(messages) && p < |messages|
    ensures Position(messages, messages[p].messageId) == p
  {
    var q := Position(messages, messages[p].messageId);
    assert q <= p;
  }

  /** One page back from message `p` is the stretch just before it, and `hasMore` tells whether it starts later. */
  lemma PageBeforeMessage(messages: seq<Message>, p: nat, limit: int)
    requires Ordered(messages) && p < |messages| && messages[p].messageId != ""
    ensures var start := Max(p - PageLimit(limit), 0);
            && ListMessages(messages, limit, 0, messages[p].messageId) == messages[start..p]
            && (HasMore(messages, limit, 0, messages[p].messageId) <==> start > 0)
  {
    PositionOf(messages, p);
    OlderIsPrefix(messages, p);
    var start := Max(p - PageLimit(limit), 0);
    assert messages[..p][start..p] == messages[start..p];
  }

  predicate NamedMessages(messages: seq<Message>) {
    forall i :: 0 <= i < |messages| ==> messages[i].messageId != ""
  }

  function Rejoined(pages: seq<seq<Message>>): seq<Message> {
    if pages == [] then [] else Rejoined(pages[1..]) + pages[0]
  }

  predicate PageSizes(pages: seq<seq<Message>>, limit: int) {
    && (forall i :: 0 <= i < |pages| - 1 ==> |pages[i]| == PageLimit(limit))
    && (forall i :: 0 <= i < |pages| ==> 0 < |pages[i]| <= PageLimit(limit))
  }

  lemma NewerPage(page: seq<Message>, older: seq<seq<Message>>, limit: int)
    requires PageSizes(older, limit) && 0 < |page| <= PageLimit(limit)
    requires older != [] ==> |page| == PageLimit(limit)
    ensures Rejoined([page] + older) == Rejoined(older) + page && PageSizes([page] + older, limit)
  {
    var pages := [page] + older;
    assert pages[1..] == older;
    forall i | 0 < i < |pages| ensures pages[i] == older[i - 1] {
    }
  }

  /** `size` messages before `p`, then the pages behind them. */
  lemma OlderPages(messages: seq<Message>, p: nat, limit: int, older: seq<seq<Message>>)
    requires PageLimit(limit) < p <= |messages| && PageSizes(older, limit) && older != []
    requires Rejoined(older) == messages[..p - PageLimit(limit)]
    ensures var pages := [messages[p - PageLimit(limit)..p]] + older;
            Rejoined(pages) == messages[..p] && PageSizes(pages, limit)
  {
    var start := p - PageLimit(limit);
    NewerPage(messages[start..p], older, limit);
    assert messages[..start] + messages[start..p] == messages[..p];
  }

  lemma LastPageAlone(messages: seq<Message>, p: nat, limit: int)
    requires 0 < p <= PageLimit(limit) && p <= |messages|
    ensures Rejoined([messages[..p]]) == messages[..p] && PageSizes([messages[..p]], limit)
  {
    NewerPage(messages[..p], [], limit);
    assert [messages[..p]] + [] == [messages[..p]];
  }

  /**
   The pages a reader gets who keeps asking for what precedes the oldest message shown, until
   `hasMore` is false. They partition the history: put together in reverse they are exactly the
   messages before the start, each once and in order; all but the oldest page are full.
   */
  function PagesBack(messages: seq<Message>, p: nat, limit: int): (pages: seq<seq<Message>>)
    requires Ordered(messages) && NamedMessages(messages) && p < |messages|
    ensures Rejoined(pages) == messages[..p] && PageSizes(pages, limit)
    ensures pages == [] <==> p == 0
    decreases p
  {
    var page := ListMessages(messages, limit, 0, messages[p].messageId);
    PageBeforeMessage(messages, p, limit);
    if page == [] then []
    else if !HasMore(messages, limit, 0, messages[p].messageId) then
      LastPageAlone(messages, p, limit);
      [page]
    else
      PositionOf(messages, p - PageLimit(limit));
      var older := PagesBack(messages, Position(messages, page[0].messageId), limit);
      OlderPages(messages, p, limit, older);
      [page] + older
  }

  /** Messages that arrive after the start, in query order, never change a page behind it. */
  lemma ArrivalsDoNotDisturb(messages: seq<Message>, more: seq<Message>, p: nat, limit: int)
    requires Ordered(messages + more) && NamedMessages(messages) && p < |messages|
    ensures var before := messages[p].messageId;
            && ListMessages(messages + more, limit, 0, before) == ListMessages(messages, limit, 0, before)
            && (HasMore(messages + more, limit, 0, before) <==> HasMore(messages, limit, 0, before))
  {
    var all := messages + more;
    assert forall i :: 0 <= i < |messages| ==> all[i] == messages[i];
    assert Ordered(messages) by {
      forall i, j | 0 <= i < j < |messages|
        ensures Before(messages[i], messages[j]) && messages[i].messageId != messages[j].messageId
      {
        assert Before(all[i], all[j]) && all[i].messageId != all[j].messageId;
      }
    }
    PageBeforeMessage(messages, p, limit);
    PageBeforeMessage(all, p, limit);
    var start := Max(p - PageLimit(limit), 0);
    assert all[start..p] == messages[start..p];
  }

  /** A page forward: the messages from the offset on, in order, as many as the limit allows. */
  lemma PageForward(messages: seq<Message>, limit: int, offset: nat)
    requires 1 <= limit <= 500 && offset <= |messages|
    ensures var page := ListMessages(messages, limit, offset, "");
            && |page| == (if offset + limit <= |messages| then limit else |messages| - offset)
            && forall i :: 0 <= i < |page| ==> page[i] == messages[offset + i]
  {
  }

  /** A page backward, at an offset: it ends that many messages before the pivot. */
  lemma PageBackward(messages: seq<Message>, p: nat, limit: int, offset: nat)
    requires Ordered(messages) && p < |messages| && messages[p].messageId != ""
    requires 1 <= limit <= 500 && offset <= p
    ensures var start := if offset + limit <= p then p - offset - limit else 0;
            ListMessages(messages, limit, offset, messages[p].messageId) == messages[start..p - offset]
    ensures CountMessages(messages, messages[p].messageId) == p
  {
    PositionOf(messages, p);
    OlderIsPrefix(messages, p);
    var start := if offset + limit <= p then p - offset - limit else 0;
    SliceOfPrefix(messages, p, start, p - offset);
  }

  lemma SliceOfPrefix(messages: seq<Message>, p: nat, start: nat, end: nat)
    requires start <= end <= p <= |messages|
    ensures messages[..p][start..end] == messages[start..end]
  {
  }

  /** An unknown `before` yields an empty page and no more. */
  lemma UnknownMessage(messages: seq<Message>, limit: int, offset: nat, before: string)
    requires before != "" && forall i :: 0 <= i < |messages| ==> messages[i].messageId != before
    ensures ListMessages(messages, limit, offset, before) == [] && !HasMore(messages, limit, offset, before)
  {
  }

  /** Without `before` the flag likewise tells whether messages remain past the page. */
  lemma HasMoreForward(messages: seq<Message>, limit: int, offset: nat)
    ensures HasMore(messages, limit, offset, "") <==> offset + PageLimit(limit) < |messages|
  {
  }
}
