/**
 Paging back through a channel's stored history (internal/storage/sqlite/sqlite.go, ListMessages,
 with internal/server/history.go, handleChatHistory).

 The database orders by timestamp alone, so among equal timestamps any order, and any choice at
 the limit, is possible. Times are the stored microseconds; no stored one is the zero time.
 */
module Paging {
  import opened Base
  import opened Channels

  /** time.Time{} in microseconds. */
  const ZERO_MICROS := -62_135_596_800_000_000

  datatype Message = Message(id: Id, from: Id, body: string, ts: int)

  /** What goes to the client for one message. */
  datatype Wire = Wire(id: Id, from: Id, ts: int, body: string)

  function Clamp(limit: int): int {
    if limit <= 0 then 50 else if limit > 500 then 500 else limit
  }

  function Older(rows: set<Message>, before: Option<int>): set<Message> {
    if before.None? then rows else set m | m in rows && m.ts < before.value
  }

  ghost predicate NoTwice(s: seq<Message>) {
    forall i, j :: 0 <= i < j < |s| ==> s[i] != s[j]
  }

  ghost predicate OldestFirst(s: seq<Message>) {
    forall i, j :: 0 <= i < j < |s| ==> s[i].ts <= s[j].ts
  }

  ghost predicate NewestFirst(s: seq<Message>) {
    forall i, j :: 0 <= i < j < |s| ==> s[i].ts >= s[j].ts
  }

  /** s has as many of the rows as the limit allows, and none left out is newer than one in it. */
  ghost predicate Newest(rows: set<Message>, limit: int, s: seq<Message>) {
    && NoTwice(s) && |s| == Min(limit, |rows|)
    && (forall i :: 0 <= i < |s| ==> s[i] in rows)
    && (forall i, m :: 0 <= i < |s| && m in rows && m !in s ==> m.ts <= s[i].ts)
  }

  /** One answer to a history request. */
  ghost predicate IsPage(rows: set<Message>, before: Option<int>, limit: int, page: seq<Message>) {
    Newest(Older(rows, before), Clamp(limit), page) && OldestFirst(page)
  }

  /** rows in the order of ORDER BY ts DESC LIMIT clamped, as the cursor yields them. */
  ghost predicate Cursor(rows: set<Message>, before: Option<int>, limit: int, cursor: seq<Message>) {
    Newest(Older(rows, before), limit, cursor) && NewestFirst(cursor)
  }

  /** query is a database of these rows; the limit it is asked with is never negative. */
  ghost predicate Answers(rows: set<Message>, query: (Option<int>, int) -> seq<Message>) {
    forall b, n: nat :: Cursor(rows, b, n, query(b, n))
  }

  /** The newest n of some rows, in the database's order. */
  lemma {:induction false} NewestSeq(rows: set<Message>, n: nat) returns (s: seq<Message>)
    ensures Newest(rows, n, s) && NewestFirst(s)
    decreases n
  {
    if n == 0 || rows == {} {
      s := [];
    } else {
      var m := NewestExists(rows);
      var others := rows - {m};
      var rest := NewestSeq(others, n - 1);
      s := [m] + rest;
      assert |others| == |rows| - 1;
      forall i | 0 <= i < |s| ensures s[i] in rows && s[i].ts <= m.ts && (i > 0 ==> s[i] in others) {
        if i > 0 { assert s[i] == rest[i - 1]; }
      }
      NewestCons(rows, n, m, rest);
    }
  }

  lemma NewestCons(rows: set<Message>, n: nat, m: Message, rest: seq<Message>)
    requires n > 0 && m in rows && (forall x :: x in rows ==> x.ts <= m.ts)
    requires Newest(rows - {m}, n - 1, rest) && NewestFirst(rest)
    ensures Newest(rows, n, [m] + rest) && NewestFirst([m] + rest)
  {
    ConsInOrder(rows, m, rest);
    forall i, x | 0 <= i < |[m] + rest| && x in rows && x !in [m] + rest ensures x.ts <= ([m] + rest)[i].ts {
      OmittedOlder(rows, n, m, rest, i, x);
    }
  }

  lemma ConsInOrder(rows: set<Message>, m: Message, rest: seq<Message>)
    requires m in rows && (forall x :: x in rows ==> x.ts <= m.ts)
    requires NewestFirst(rest) && NoTwice(rest) && forall i :: 0 <= i < |rest| ==> rest[i] in rows - {m}
    ensures NewestFirst([m] + rest) && NoTwice([m] + rest)
    ensures forall i :: 0 <= i < |[m] + rest| ==> ([m] + rest)[i] in rows
  {
    var s := [m] + rest;
    assert s[0] == m && forall i :: 0 < i < |s| ==> s[i] == rest[i - 1];
    forall i, j | 0 <= i < j < |s| ensures s[i].ts >= s[j].ts && s[i] != s[j] {
      assert s[j] == rest[j - 1] && s[j] in rows - {m};
    }
  }

  lemma OmittedOlder(rows: set<Message>, n: nat, m: Message, rest: seq<Message>, i: nat, x: Message)
    requires n > 0 && m in rows && (forall y :: y in rows ==> y.ts <= m.ts) && Newest(rows - {m}, n - 1, rest)
    requires i <= |rest| && x in rows && x !in [m] + rest
    ensures x.ts <= ([m] + rest)[i].ts
  {
    var s := [m] + rest;
    assert s[0] == m && x != m && x in rows - {m} && x !in rest;
    if i > 0 { assert s[i] == rest[i - 1]; }
  }

  ghost function AnswerOf(rows: set<Message>, b: Option<int>, n: nat): (s: seq<Message>)
    ensures Cursor(rows, b, n, s)
  {
    CursorExists(rows, b, n);
    var s :| Cursor(rows, b, n, s);
    s
  }

  lemma CursorExists(rows: set<Message>, b: Option<int>, n: nat)
    ensures exists s :: Cursor(rows, b, n, s)
  {
    var s := NewestSeq(Older(rows, b), n);
    assert Cursor(rows, b, n, s);
  }

  /** There is a database for any set of rows. */
  lemma DatabaseExists(rows: set<Message>)
    ensures exists query :: Answers(rows, query)
  {
    ghost var query := (b: Option<int>, n: int) => if n >= 0 then AnswerOf(rows, b, n) else [];
    assert Answers(rows, query);
  }

  /** query is the database: its answer depends on the clamped limit. A zero time means no bound. */
  method ListMessages(ghost rows: set<Message>, limit: int, beforeTs: int, query: (Option<int>, int) -> seq<Message>)
    returns (page: seq<Message>)
    requires Answers(rows, query)
    // stored messages from before the bound, oldest first, each once
    ensures forall i :: 0 <= i < |page| ==> page[i] in rows && (beforeTs == ZERO_MICROS || page[i].ts < beforeTs)
    ensures forall i, j :: 0 <= i < j < |page| ==> page[i] != page[j] && page[i].ts <= page[j].ts
    // as many as there are up to the limit, by default 50 and at most 500, and no newer one is left out
    ensures |page| == Min(if limit <= 0 then 50 else if limit > 500 then 500 else limit,
                          |set m | m in rows && (beforeTs == ZERO_MICROS || m.ts < beforeTs)|)
    ensures forall i, m :: 0 <= i < |page| && m in rows && m !in page && (beforeTs == ZERO_MICROS || m.ts < beforeTs)
                           ==> m.ts <= page[i].ts
    ensures IsPage(rows, if beforeTs == ZERO_MICROS then None else Some(beforeTs), limit, page)
  {
    var n := limit;
    if n <= 0 {
      n := 50;
    }
    if n > 500 {
      n := 500;
    }
    var before := if beforeTs == ZERO_MICROS then None else Some(beforeTs);
    var cursor := query(before, n);
    assert Cursor(rows, before, n, cursor);
    page := OldestToNewest(cursor);
    ReversedCursor(Older(rows, before), n, cursor, page);
    assert Older(rows, before) == set m | m in rows && (beforeTs == ZERO_MICROS || m.ts < beforeTs);
  }

  /** Reverses the rows of the cursor in place. */
  method OldestToNewest(cursor: seq<Message>) returns (page: seq<Message>)
    ensures |page| == |cursor| && forall i :: 0 <= i < |page| ==> page[i] == cursor[|cursor| - 1 - i]
  {
    var newestFirst := new Message[|cursor|](i requires 0 <= i < |cursor| => cursor[i]);
    Reverse(newestFirst, newestFirst.Length);
    page := newestFirst[..];
  }

  lemma ReversedCursor(rows: set<Message>, n: int, cursor: seq<Message>, page: seq<Message>)
    requires Newest(rows, n, cursor) && NewestFirst(cursor)
    requires |page| == |cursor| && forall i :: 0 <= i < |page| ==> page[i] == cursor[|cursor| - 1 - i]
    ensures Newest(rows, n, page) && OldestFirst(page)
  {
    forall m | m in cursor ensures m in page {
      var j :| 0 <= j < |cursor| && cursor[j] == m;
      assert page[|cursor| - 1 - j] == m;
    }
  }

  /** Each message of the page, field by field and in order. */
  ghost predicate AsWire(page: seq<Message>, messages: seq<Wire>) {
    && |messages| == |page|
    && forall i :: 0 <= i < |page| ==>
         && messages[i].id == page[i].id && messages[i].from == page[i].from
         && messages[i].ts == page[i].ts && messages[i].body == page[i].body
  }

  datatype Reply = InvalidRequest | ChannelNotFound | NothingSent | History(messages: seq<Wire>)

  /**
   handleChatHistory: the page in wire form and order. found tells whether the channel exists, fits
   whether the reply is small enough to encode; one that is not is never sent.
   */
  method ChatHistory(ghost rows: set<Message>, channel: string, found: bool, limit: int, beforeTs: int,
                     query: (Option<int>, int) -> seq<Message>, fits: seq<Wire> -> bool)
    returns (reply: Reply)
    requires Answers(rows, query)
    ensures reply == InvalidRequest <==> channel == ""
    ensures reply == ChannelNotFound <==> channel != "" && !found
    ensures channel != "" && found ==> exists page, messages ::
      && IsPage(rows, if beforeTs == ZERO_MICROS then None else Some(beforeTs), limit, page)
      && AsWire(page, messages)
      && reply == if fits(messages) then History(messages) else NothingSent
  {
    if channel == "" {
      return InvalidRequest;
    }
    if !found {
      return ChannelNotFound;
    }
    var n := limit;
    if n <= 0 {
      n := 50;
    }
    var list := ListMessages(rows, n, beforeTs, query);
    var messages := [];
    for i := 0 to |list|
      invariant AsWire(list[..i], messages)
    {
      messages := messages + [Wire(list[i].id, list[i].from, list[i].ts, list[i].body)];
    }
    assert list[..|list|] == list;
    return if fits(messages) then History(messages) else NothingSent;
  }

  // Paging

  /** The bound of the request after these pages: the oldest timestamp seen. */
  function NextBefore(pages: seq<seq<Message>>): Option<int>
    requires pages != [] ==> pages[|pages| - 1] != []
  {
    if pages == [] then None else Some(pages[|pages| - 1][0].ts)
  }

  /** A client pages back over rows, feeding the oldest returned timestamp back as the bound. */
  ghost predicate Run(rows: set<Message>, limit: int, pages: seq<seq<Message>>) {
    pages == [] ||
    var most := pages[..|pages| - 1];
    && Run(rows, limit, most)
    && (most != [] ==> most[|most| - 1] != [])
    && IsPage(rows, NextBefore(most), limit, pages[|pages| - 1])
  }

  /** Everything received, the page fetched last in front. */
  function Received(pages: seq<seq<Message>>): seq<Message> {
    if pages == [] then [] else pages[|pages| - 1] + Received(pages[..|pages| - 1])
  }

  /** m has the timestamp of the oldest message of some page. */
  ghost predicate TiedWithBound(pages: seq<seq<Message>>, m: Message) {
    exists k :: 0 <= k < |pages| && pages[k] != [] && pages[k][0].ts == m.ts
  }

  /** A page lies strictly before the oldest message of each page fetched earlier. */
  lemma {:induction false} PagesDescend(rows: set<Message>, limit: int, pages: seq<seq<Message>>, j: nat, k: nat, m: Message)
    requires Run(rows, limit, pages) && j < k < |pages| && m in pages[k]
    ensures pages[j] != [] && m.ts < pages[j][0].ts
  {
    var most, page := pages[..|pages| - 1], pages[|pages| - 1];
    if k < |pages| - 1 {
      PagesDescend(rows, limit, most, j, k, m);
    } else {
      assert m in Older(rows, NextBefore(most));
      if j < k - 1 {
        assert most[k - 1][0] in most[k - 1];
        PagesDescend(rows, limit, most, j, k - 1, most[k - 1][0]);
      }
    }
  }

  lemma {:induction false} InReceived(pages: seq<seq<Message>>, m: Message)
    ensures m in Received(pages) <==> exists k :: 0 <= k < |pages| && m in pages[k]
  {
    if pages != [] {
      var n := |pages| - 1;
      InReceived(pages[..n], m);
      assert m in Received(pages) <==> m in pages[n] || m in Received(pages[..n]);
      if m in Received(pages[..n]) {
        var k :| 0 <= k < n && m in pages[..n][k];
        assert m in pages[k];
      }
      if k :| 0 <= k < n && m in pages[k] {
        assert m in pages[..n][k];
      }
    }
  }

  lemma {:induction false} ReceivedStored(rows: set<Message>, limit: int, pages: seq<seq<Message>>)
    requires Run(rows, limit, pages)
    ensures forall i :: 0 <= i < |Received(pages)| ==> Received(pages)[i] in rows
  {
    if pages != [] {
      ReceivedStored(rows, limit, pages[..|pages| - 1]);
    }
  }

  /** The page in front is older than everything received before it. */
  lemma PageBeforeRest(rows: set<Message>, limit: int, pages: seq<seq<Message>>, m: Message, n: Message)
    requires Run(rows, limit, pages) && pages != []
    requires m in pages[|pages| - 1] && n in Received(pages[..|pages| - 1])
    ensures m.ts < n.ts
  {
    var most := pages[..|pages| - 1];
    InReceived(most, n);
    var j :| 0 <= j < |most| && n in most[j];
    PagesDescend(rows, limit, pages, j, |pages| - 1, m);
    OldestInPage(rows, limit, pages, j, n);
  }

  lemma {:induction false} OldestInPage(rows: set<Message>, limit: int, pages: seq<seq<Message>>, j: nat, n: Message)
    requires Run(rows, limit, pages) && j < |pages| && n in pages[j]
    ensures pages[j][0].ts <= n.ts
  {
    if j < |pages| - 1 {
      OldestInPage(rows, limit, pages[..|pages| - 1], j, n);
    }
  }

  lemma Prepended(page: seq<Message>, rest: seq<Message>)
    requires OldestFirst(page) && NoTwice(page) && OldestFirst(rest) && NoTwice(rest)
    requires forall m, n :: m in page && n in rest ==> m.ts < n.ts
    ensures OldestFirst(page + rest) && NoTwice(page + rest)
  {
    var all := page + rest;
    forall i, j | 0 <= i < j < |all| ensures all[i].ts <= all[j].ts && all[i] != all[j] {
      if i < |page| <= j {
        assert all[i] in page && all[j] in rest;
      }
    }
  }

  /**
   Whatever pages a client has received, put together they are stored messages, oldest first, and
   none of them twice.
   */
  lemma {:induction false} PagesInOrder(rows: set<Message>, limit: int, pages: seq<seq<Message>>)
    requires Run(rows, limit, pages)
    ensures OldestFirst(Received(pages)) && NoTwice(Received(pages))
    ensures forall i :: 0 <= i < |Received(pages)| ==> Received(pages)[i] in rows
  {
    ReceivedStored(rows, limit, pages);
    if pages != [] {
      var most, page := pages[..|pages| - 1], pages[|pages| - 1];
      PagesInOrder(rows, limit, most);
      forall m, n | m in page && n in Received(most) ensures m.ts < n.ts {
        PageBeforeRest(rows, limit, pages, m, n);
      }
      Prepended(page, Received(most));
    }
  }

  lemma {:induction false} NoTwiceFits(s: seq<Message>, all: set<Message>)
    requires NoTwice(s) && forall i :: 0 <= i < |s| ==> s[i] in all
    ensures |s| <= |all|
  {
    if s != [] {
      var n := |s| - 1;
      NoTwiceFits(s[..n], all - {s[n]});
    }
  }

  lemma {:induction false} PagesAddUp(rows: set<Message>, limit: int, pages: seq<seq<Message>>)
    requires Run(rows, limit, pages)
    ensures |pages| <= |Received(pages)| + 1
    ensures pages != [] && pages[|pages| - 1] != [] ==> |pages| <= |Received(pages)|
  {
    if pages != [] {
      PagesAddUp(rows, limit, pages[..|pages| - 1]);
    }
  }

  /** Paging ends: a run is never longer than one page more than there are messages. */
  lemma PagingTerminates(rows: set<Message>, limit: int, pages: seq<seq<Message>>)
    requires Run(rows, limit, pages)
    ensures |pages| <= |rows| + 1
  {
    PagesInOrder(rows, limit, pages);
    PagesAddUp(rows, limit, pages);
    NoTwiceFits(Received(pages), rows);
  }

  /** Rows newer than the bound of the next request have been received or were tied with a bound. */
  lemma {:induction false} NewerAccounted(rows: set<Message>, limit: int, pages: seq<seq<Message>>, m: Message)
    requires Run(rows, limit, pages) && m in rows && pages != []
    requires pages[|pages| - 1] != [] ==> m.ts > pages[|pages| - 1][0].ts
    ensures m in Received(pages) || TiedWithBound(pages, m)
  {
    var most, page := pages[..|pages| - 1], pages[|pages| - 1];
    if m !in page {
      var before := NextBefore(most);
      if m in Older(rows, before) {
        OlderEmpty(rows, before, limit, page);
        assert false;
      } else if m.ts == most[|most| - 1][0].ts {
        assert pages[|most| - 1] == most[|most| - 1];
      } else {
        NewerAccounted(rows, limit, most, m);
        if TiedWithBound(most, m) {
          var k :| 0 <= k < |most| && most[k] != [] && most[k][0].ts == m.ts;
          assert pages[k] == most[k];
        }
      }
    }
  }

  /** An empty page means that nothing older is left. */
  lemma OlderEmpty(rows: set<Message>, before: Option<int>, limit: int, page: seq<Message>)
    requires IsPage(rows, before, limit, page)
    ensures page == [] <==> Older(rows, before) == {}
  {
  }

  /**
   When paging has reached the empty page, every message not received shares its timestamp with the
   oldest message of some page.
   */
  lemma SkippedAreTied(rows: set<Message>, limit: int, pages: seq<seq<Message>>, m: Message)
    requires Run(rows, limit, pages) && pages != [] && pages[|pages| - 1] == []
    requires m in rows
    ensures m in Received(pages) || TiedWithBound(pages, m)
  {
    NewerAccounted(rows, limit, pages, m);
  }

  /** The page, if it has messages, has all the rows as old as its oldest one. */
  ghost predicate Whole(rows: set<Message>, page: seq<Message>) {
    page != [] ==> forall m :: m in rows && m.ts == page[0].ts ==> m in page
  }

  ghost predicate TiesWhole(rows: set<Message>, pages: seq<seq<Message>>) {
    forall k :: 0 <= k < |pages| ==> Whole(rows, pages[k])
  }

  /** A received row as old as the oldest of page k is in page k and no other. */
  lemma TiedInItsPage(rows: set<Message>, limit: int, pages: seq<seq<Message>>, k: nat, m: Message)
    requires Run(rows, limit, pages) && k < |pages|
    requires pages[k] != [] && m in Received(pages) && m.ts == pages[k][0].ts
    ensures m in pages[k]
  {
    InReceived(pages, m);
    var j :| 0 <= j < |pages| && m in pages[j];
    if k < j {
      PagesDescend(rows, limit, pages, k, j, m);
    } else if j < k {
      assert pages[k][0] in pages[k];
      PagesDescend(rows, limit, pages, j, k, pages[k][0]);
      OldestInPage(rows, limit, pages, j, m);
    }
  }

  lemma {:induction false} TiesWholeIff(rows: set<Message>, limit: int, pages: seq<seq<Message>>)
    requires Run(rows, limit, pages) && pages != [] && pages[|pages| - 1] == []
    ensures (forall m :: m in rows ==> m in Received(pages)) <==> TiesWhole(rows, pages)
  {
    if forall m :: m in rows ==> m in Received(pages) {
      forall k | 0 <= k < |pages| ensures Whole(rows, pages[k]) {
        if pages[k] != [] {
          forall m | m in rows && m.ts == pages[k][0].ts ensures m in pages[k] {
            TiedInItsPage(rows, limit, pages, k, m);
          }
        }
      }
    }
    if TiesWhole(rows, pages) {
      forall m | m in rows ensures m in Received(pages) {
        SkippedAreTied(rows, limit, pages, m);
        if TiedWithBound(pages, m) {
          var k :| 0 <= k < |pages| && pages[k] != [] && pages[k][0].ts == m.ts;
          assert Whole(rows, pages[k]);
          InReceived(pages, m);
        }
      }
    }
  }

  // When paging is complete, told from the rows and the limit alone

  function AtLeast(left: set<Message>, t: int): set<Message> {
    set m | m in left && m.ts >= t
  }

  function Newer(left: set<Message>, t: int): set<Message> {
    set m | m in left && m.ts > t
  }

  function Below(left: set<Message>, t: int): set<Message> {
    set m | m in left && m.ts < t
  }

  /** t is the timestamp that the newest n of the rows go back to. */
  predicate IsBound(left: set<Message>, n: int, t: int) {
    && (exists m :: m in left && m.ts == t)
    && |Newer(left, t)| < n && Min(n, |left|) <= |AtLeast(left, t)|
  }

  lemma {:induction false} NewestExists(left: set<Message>) returns (newest: Message)
    requires left != {}
    ensures newest in left && forall m :: m in left ==> m.ts <= newest.ts
    decreases left
  {
    newest :| newest in left;
    if exists m :: m in left && m.ts > newest.ts {
      var others := left - {newest};
      var m :| m in left && m.ts > newest.ts;
      assert m in others;
      var best := NewestExists(others);
      newest := best;
    }
  }

  lemma {:induction false} BoundExists(left: set<Message>, n: int)
    requires left != {} && n >= 1
    ensures exists t :: IsBound(left, n, t)
    decreases n
  {
    var m := NewestExists(left);
    if n == 1 || left == {m} {
      NewestIsBound(left, n, m);
    } else {
      var others := left - {m};
      assert others != {} by { assert left != {m}; }
      BoundExists(others, n - 1);
      var t :| IsBound(others, n - 1, t);
      BoundWithNewest(left, n, m, t);
    }
  }

  lemma NewestIsBound(left: set<Message>, n: int, m: Message)
    requires m in left && (forall x :: x in left ==> x.ts <= m.ts) && n >= 1 && (n == 1 || left == {m})
    ensures IsBound(left, n, m.ts)
  {
    assert Newer(left, m.ts) == {};
    assert {m} <= AtLeast(left, m.ts);
    Fits({m}, AtLeast(left, m.ts));
  }

  lemma BoundWithNewest(left: set<Message>, n: int, m: Message, t: int)
    requires m in left && (forall x :: x in left ==> x.ts <= m.ts) && IsBound(left - {m}, n - 1, t)
    ensures IsBound(left, n, t)
  {
    var others := left - {m};
    assert AtLeast(left, t) == AtLeast(others, t) + {m};
    assert Newer(left, t) <= Newer(others, t) + {m};
    Fits(Newer(left, t), Newer(others, t) + {m});
  }

  lemma {:induction false} Fits<T>(a: set<T>, b: set<T>)
    requires a <= b
    ensures |a| <= |b|
    ensures |a| == |b| ==> a == b
  {
    assert b == a + (b - a);
  }

  lemma BoundUnique(left: set<Message>, n: int, t: int, u: int)
    requires IsBound(left, n, t) && IsBound(left, n, u) && t <= u
    ensures t == u
  {
    if t < u {
      assert AtLeast(left, u) <= Newer(left, t);
      Fits(AtLeast(left, u), Newer(left, t));
      Fits(AtLeast(left, u), left);
    }
  }

  function Elements(s: seq<Message>): set<Message> {
    set i | 0 <= i < |s| :: s[i]
  }

  lemma {:induction false} ElementCount(s: seq<Message>)
    requires NoTwice(s)
    ensures |Elements(s)| == |s|
  {
    if s != [] {
      var n := |s| - 1;
      ElementCount(s[..n]);
      assert Elements(s) == Elements(s[..n]) + {s[n]};
    }
  }

  /** The oldest timestamp of a page does not depend on the database's choices. */
  lemma PageBound(left: set<Message>, n: int, page: seq<Message>)
    requires Newest(left, n, page) && OldestFirst(page) && page != [] && n >= 1
    ensures IsBound(left, n, page[0].ts)
  {
    var t, es := page[0].ts, Elements(page);
    ElementCount(page);
    assert page[0] in left;
    assert es <= AtLeast(left, t);
    Fits(es, AtLeast(left, t));
    forall m | m in Newer(left, t) ensures m in es - {page[0]} {
      assert m in page;
    }
    Fits(Newer(left, t), es - {page[0]});
  }

  lemma PageElements(left: set<Message>, n: int, page: seq<Message>)
    requires Newest(left, n, page) && OldestFirst(page) && page != []
    ensures Elements(page) <= AtLeast(left, page[0].ts) && |Elements(page)| == Min(n, |left|)
    ensures forall m :: m in page <==> m in Elements(page)
  {
    ElementCount(page);
  }

  /** A page leaves out a row as old as its oldest one iff there are more such rows than it can hold. */
  lemma PageSplits(left: set<Message>, n: int, page: seq<Message>)
    requires Newest(left, n, page) && OldestFirst(page) && page != []
    ensures (forall m :: m in left && m.ts == page[0].ts ==> m in page) <==> |AtLeast(left, page[0].ts)| <= n
  {
    var t, es, all := page[0].ts, Elements(page), AtLeast(left, page[0].ts);
    PageElements(left, n, page);
    Fits(es, all);
    Fits(all, left);
    if |all| <= n {
      assert es == all;
      forall m | m in left && m.ts == t ensures m in page { assert m in all; }
    } else {
      assert |es| < |all|;
      assert exists m :: m in all && m !in es by { if all <= es { Fits(all, es); } }
      var m :| m in all && m !in es;
      assert m !in page && m.ts <= t;
    }
  }

  /**
   No page boundary falls inside a group of equal timestamps: the newest n of the rows left contain
   all rows as old as the oldest of them, and the same holds of the rows below.
   */
  ghost predicate NoTieSplit(left: set<Message>, n: int)
    requires n >= 1
    decreases |left|
  {
    left == {} ||
    (BoundExists(left, n);
     var t :| IsBound(left, n, t);
     BelowSmaller(left, n, t);
     |AtLeast(left, t)| <= n && NoTieSplit(Below(left, t), n))
  }

  lemma BelowSmaller(left: set<Message>, n: int, t: int)
    requires IsBound(left, n, t)
    ensures |Below(left, t)| < |left|
  {
    var m :| m in left && m.ts == t;
    assert m !in Below(left, t);
    Fits(Below(left, t), left);
  }

  lemma NoTieSplitAt(left: set<Message>, n: int, t: int)
    requires n >= 1 && IsBound(left, n, t)
    ensures NoTieSplit(left, n) <==> |AtLeast(left, t)| <= n && NoTieSplit(Below(left, t), n)
  {
    BoundExists(left, n);
    forall u | IsBound(left, n, u) ensures u == t {
      if u <= t { BoundUnique(left, n, u, t); } else { BoundUnique(left, n, t, u); }
    }
  }

  /** What is left to fetch after these pages. */
  function LeftAfter(rows: set<Message>, pages: seq<seq<Message>>): set<Message> {
    if pages != [] && pages[|pages| - 1] == [] then {} else Older(rows, NextBefore(pages))
  }

  /** No page so far has split a group, and no later one will, exactly when none does from the start. */
  lemma {:induction false} SplitsAlongRun(rows: set<Message>, limit: int, pages: seq<seq<Message>>)
    requires Run(rows, limit, pages)
    ensures NoTieSplit(rows, Clamp(limit)) <==> TiesWhole(rows, pages) && NoTieSplit(LeftAfter(rows, pages), Clamp(limit))
  {
    if pages != [] {
      SplitsAlongRun(rows, limit, pages[..|pages| - 1]);
      TiesWholeSnoc(rows, limit, pages);
      OnePageMore(rows, limit, pages);
    }
  }

  lemma OnePageMore(rows: set<Message>, limit: int, pages: seq<seq<Message>>)
    requires Run(rows, limit, pages) && pages != []
    ensures var most, page := pages[..|pages| - 1], pages[|pages| - 1];
      var left := Older(rows, NextBefore(most));
      NoTieSplit(left, Clamp(limit)) <==>
        && (page != [] ==> forall m :: m in left && m.ts == page[0].ts ==> m in page)
        && NoTieSplit(LeftAfter(rows, pages), Clamp(limit))
  {
    var n := Clamp(limit);
    var most, page := pages[..|pages| - 1], pages[|pages| - 1];
    var left := Older(rows, NextBefore(most));
    if page == [] {
      OlderEmpty(rows, NextBefore(most), limit, page);
    } else {
      PageBound(left, n, page);
      PageSplits(left, n, page);
      NoTieSplitAt(left, n, page[0].ts);
      assert page[0] in left;
      assert Below(left, page[0].ts) == LeftAfter(rows, pages);
    }
  }

  lemma TiesWholeSnoc(rows: set<Message>, limit: int, pages: seq<seq<Message>>)
    requires Run(rows, limit, pages) && pages != []
    ensures var most, page := pages[..|pages| - 1], pages[|pages| - 1];
      TiesWhole(rows, pages) <==>
        && TiesWhole(rows, most)
        && (page != [] ==> forall m :: m in Older(rows, NextBefore(most)) && m.ts == page[0].ts ==> m in page)
  {
    var most, page := pages[..|pages| - 1], pages[|pages| - 1];
    WholeOfLeft(rows, limit, NextBefore(most), page);
    assert forall k :: 0 <= k < |most| ==> most[k] == pages[k];
    if TiesWhole(rows, most) && Whole(rows, page) {
      forall k | 0 <= k < |pages| ensures Whole(rows, pages[k]) {
        if k < |most| { assert Whole(rows, most[k]); }
      }
    }
  }

  /** Rows tied with the oldest of a page are all among what was left when it was fetched. */
  lemma WholeOfLeft(rows: set<Message>, limit: int, before: Option<int>, page: seq<Message>)
    requires IsPage(rows, before, limit, page)
    ensures Whole(rows, page) <==> (page != [] ==> forall m :: m in Older(rows, before) && m.ts == page[0].ts ==> m in page)
  {
    if page != [] { assert page[0] in Older(rows, before); }
  }

  /**
   A client that pages to the end receives every message if and only if no page boundary, as the rows
   and the limit determine them, falls inside a group of equal timestamps.
   */
  lemma {:induction false} PagingCompleteIff(rows: set<Message>, limit: int, pages: seq<seq<Message>>)
    requires Run(rows, limit, pages) && pages != [] && pages[|pages| - 1] == []
    ensures (forall m :: m in rows ==> m in Received(pages)) <==> NoTieSplit(rows, Clamp(limit))
  {
    TiesWholeIff(rows, limit, pages);
    SplitsAlongRun(rows, limit, pages);
  }

  /** Distinct timestamps are never split. */
  lemma {:induction false} DistinctTimesComplete(left: set<Message>, n: int)
    requires n >= 1 && forall m, o :: m in left && o in left && m.ts == o.ts ==> m == o
    ensures NoTieSplit(left, n)
    decreases |left|
  {
    if left != {} {
      BoundExists(left, n);
      var t :| IsBound(left, n, t);
      var m :| m in left && m.ts == t;
      assert AtLeast(left, t) == Newer(left, t) + {m};
      BelowSmaller(left, n, t);
      DistinctTimesComplete(Below(left, t), n);
      NoTieSplitAt(left, n, t);
    }
  }

  /** Two messages of the same instant, fetched one by one: the second page is empty and one message never comes. */
  lemma TiedMessageSkipped(a: Message, b: Message)
    requires a != b && a.ts == b.ts
    ensures var pages := [[a], []]; Run({a, b}, 1, pages) && b !in Received(pages)
  {
    FirstOfTwo(a, b);
    RunSnoc({a, b}, 1, [], [a]);
    assert [] + [[a]] == [[a]];
    assert Older({a, b}, Some(a.ts)) == {};
    assert IsPage({a, b}, Some(a.ts), 1, []);
    RunSnoc({a, b}, 1, [[a]], []);
    assert [[a]] + [[]] == [[a], []];
  }

  lemma RunSnoc(rows: set<Message>, limit: int, most: seq<seq<Message>>, page: seq<Message>)
    requires Run(rows, limit, most) && (most != [] ==> most[|most| - 1] != [])
    requires IsPage(rows, NextBefore(most), limit, page)
    ensures Run(rows, limit, most + [page]) && Received(most + [page]) == page + Received(most)
  {
    assert (most + [page])[..|most|] == most;
  }

  lemma FirstOfTwo(a: Message, b: Message)
    requires a != b && a.ts == b.ts
    ensures IsPage({a, b}, None, 1, [a])
  {
    assert Older({a, b}, None) == {a, b};
    assert |[a]| == Min(1, |{a, b}|);
  }
}
