/** Messages oldest first: the server's page after a sequence number, its cursor text, and the
    client's loop over the pages of a table that grows while it is read. */
module MessagePaging {
  import opened Wrappers
  import opened ChatReducer

  // ---------------------------------------------------------------- the cursor text

  const MAX_SAFE := 9_007_199_254_740_991

  function Digit(d: nat): char
    requires d < 10
  {
    "0123456789"[d]
  }

  predicate IsDigit(c: char) { '0' <= c <= '9' }

  function DigitValue(c: char): nat
    requires IsDigit(c)
  {
    c as nat - '0' as nat
  }

  function Decimal(n: nat): string {
    if n < 10 then [Digit(n)] else Decimal(n / 10) + [Digit(n % 10)]
  }

  /** `/^[1-9]\\d*$/` */
  predicate IsNumeral(text: string) { text != "" && text[0] != '0' && forall c <- text :: IsDigit(c) }

  function Value(text: string): nat
    requires forall c <- text :: IsDigit(c)
  {
    if text == "" then 0 else 10 * Value(text[..|text| - 1]) + DigitValue(text[|text| - 1])
  }

  function DecodeCursor(text: string): Option<nat> {
    if IsNumeral(text) && Value(text) <= MAX_SAFE then Some(Value(text)) else None
  }

  lemma DigitReads(d: nat)
    requires d < 10
    ensures IsDigit(Digit(d)) && DigitValue(Digit(d)) == d && (Digit(d) == '0' <==> d == 0)
  {}

  lemma {:induction false} DecimalReads(n: nat)
    ensures forall c <- Decimal(n) :: IsDigit(c)
    ensures Decimal(n) != "" && Value(Decimal(n)) == n && (Decimal(n)[0] == '0' <==> n == 0)
  {
    DigitReads(n % 10);
    if n >= 10 {
      DecimalReads(n / 10);
      var text := Decimal(n);
      assert text[..|text| - 1] == Decimal(n / 10);
      assert text[0] == Decimal(n / 10)[0];
    }
  }

  /** A sequence number's cursor reads back exactly when it is positive and a safe integer. */
  lemma CursorRoundTrip(n: nat)
    ensures DecodeCursor(Decimal(n)) == Some(n) <==> 1 <= n <= MAX_SAFE
  {
    DecimalReads(n);
  }

  lemma {:induction false} NumeralIsDecimal(text: string)
    requires IsNumeral(text)
    ensures Decimal(Value(text)) == text && Value(text) > 0
  {
    hide Decimal;
    var last := |text| - 1;
    assert text == text[..last] + [text[last]];
    assert text[last] in text;
    DigitOf(text[last]);
    if last > 0 {
      assert text[..last][0] == text[0];
      NumeralIsDecimal(text[..last]);
      TenTimes(Value(text[..last]), DigitValue(text[last]));
    } else {
      OneDigit(DigitValue(text[last]));
    }
  }

  lemma OneDigit(d: nat)
    requires d < 10
    ensures Decimal(d) == [Digit(d)]
  {}

  lemma TenTimes(n: nat, d: nat)
    requires d < 10
    ensures (10 * n + d) / 10 == n && (10 * n + d) % 10 == d && (n > 0 ==> Decimal(10 * n + d) == Decimal(n) + [Digit(d)])
  {}

  lemma DigitOf(c: char)
    requires IsDigit(c)
    ensures DigitValue(c) < 10 && Digit(DigitValue(c)) == c
  {}

  /** And every text that decodes is the one that its number is encoded as. */
  lemma DecodedIsEncoded(text: string)
    requires DecodeCursor(text).Some?
    ensures Decimal(DecodeCursor(text).value) == text
  {
    NumeralIsDecimal(text);
  }

  // ---------------------------------------------------------------- one page

  datatype Page = Page(data: seq<Message>, nextCursor: Option<string>)

  /** Rows by ascending sequence, each number once, all encodable. */
  predicate IsTable(rows: seq<Message>) {
    && (forall i, j :: 0 <= i < j < |rows| ==> rows[i].sequence < rows[j].sequence && rows[i].messageId != rows[j].messageId)
    && (forall i :: 0 <= i < |rows| ==> 1 <= rows[i].sequence <= MAX_SAFE)
  }

  function Beyond(rows: seq<Message>, sequence: nat): seq<Message> {
    if rows == [] then [] else if rows[0].sequence > sequence then [rows[0]] + Beyond(rows[1..], sequence) else Beyond(rows[1..], sequence)
  }

  /** `None` where the server answers that the cursor is invalid. */
  function List(rows: seq<Message>, cursor: Option<string>, limit: nat): Option<Page> {
    if cursor.Some? && cursor.value != "" && DecodeCursor(cursor.value).None? then None
    else
      var found := if cursor.Some? && cursor.value != "" then Beyond(rows, DecodeCursor(cursor.value).value) else rows;
      if |found| > limit && limit > 0 then Some(Page(found[..limit], Some(Decimal(found[limit - 1].sequence))))
      else Some(Page(if |found| > limit then [] else found, None))
  }

  lemma {:induction false} BeyondIsRest(rows: seq<Message>, k: nat)
    requires IsTable(rows) && 0 < k <= |rows|
    ensures Beyond(rows, rows[k - 1].sequence) == rows[k..]
  {
    if k == 1 {
      BeyondAll(rows[1..], rows[0].sequence);
    } else {
      assert rows[1..][k - 2] == rows[k - 1];
      BeyondIsRest(rows[1..], k - 1);
      assert rows[1..][k - 1..] == rows[k..];
    }
  }

  lemma {:induction false} BeyondAll(rows: seq<Message>, sequence: nat)
    requires forall i :: 0 <= i < |rows| ==> rows[i].sequence > sequence
    ensures Beyond(rows, sequence) == rows
  {
    if rows != [] {
      BeyondAll(rows[1..], sequence);
    }
  }

  /** The cursor of row `k - 1` leads to the page that starts at row `k`. */
  lemma PageAt(rows: seq<Message>, k: nat, limit: nat)
    requires IsTable(rows) && 0 < k <= |rows| && limit > 0
    ensures List(rows, Some(Decimal(rows[k - 1].sequence)), limit) ==
      if |rows| - k > limit then Some(Page(rows[k..k + limit], Some(Decimal(rows[k + limit - 1].sequence))))
      else Some(Page(rows[k..], None))
  {
    CursorRoundTrip(rows[k - 1].sequence);
    DecimalReads(rows[k - 1].sequence);
    BeyondIsRest(rows, k);
    if |rows| - k > limit {
      assert rows[k..][..limit] == rows[k..k + limit];
      assert rows[k..][limit - 1] == rows[k + limit - 1];
    }
  }

  /** A cursor is refused exactly if it is neither empty nor that of a positive safe integer; no cursor and an
      empty one start at the first row. */
  lemma CursorRefusedIff(rows: seq<Message>, cursor: string, limit: nat)
    ensures List(rows, Some(cursor), limit).None? <==> cursor != "" && forall n: nat :: 1 <= n <= MAX_SAFE ==> Decimal(n) != cursor
    ensures List(rows, Some(""), limit) == List(rows, None, limit)
    ensures List(rows, None, limit).Some?
  {
    if cursor != "" {
      if DecodeCursor(cursor).Some? {
        DecodedIsEncoded(cursor);
        NumeralIsDecimal(cursor);
      } else {
        forall n: nat | 1 <= n <= MAX_SAFE ensures Decimal(n) != cursor { CursorRoundTrip(n); }
      }
    }
  }

  // ---------------------------------------------------------------- the client's loop

  const PAGE := 100

  datatype Error = InvalidCursor | RepeatedCursor | TooManyPages

  /** Later tables have the same rows, perhaps rewritten, and new ones after them. */
  predicate Extends(a: seq<Message>, b: seq<Message>) {
    |a| <= |b| && forall i :: 0 <= i < |a| ==> a[i].messageId == b[i].messageId && a[i].sequence == b[i].sequence
  }

  predicate IsHistory(tables: seq<seq<Message>>) {
    (forall k :: 0 <= k < |tables| ==> IsTable(tables[k])) && (forall j, k :: 0 <= j <= k < |tables| ==> Extends(tables[j], tables[k]))
  }

  /** Row `j` of what the client collects was read with the page it is on. */
  predicate Collected(tables: seq<seq<Message>>, pages: nat, messages: seq<Message>)
    requires pages <= |tables|
  {
    forall j :: 0 <= j < |messages| ==> j / PAGE < pages && j < |tables[j / PAGE]| && messages[j] == tables[j / PAGE][j]
  }

  predicate Ascends(messages: seq<Message>) {
    forall i, j :: 0 <= i < j < |messages| ==>
      messages[i].sequence < messages[j].sequence && messages[i].messageId != messages[j].messageId
  }

  lemma CanonicalOfAscending(messages: seq<Message>)
    requires Ascends(messages)
    ensures Canonical(messages) == messages
  {
    CanonicalIs(messages);
    forall m ensures m in messages <==> IsLast(messages, m) {
      if m in messages {
        var k :| 0 <= k < |messages| && messages[k] == m;
        assert forall j :: k < j < |messages| ==> messages[j].messageId != m.messageId;
      }
    }
    SortedIsUnique(Canonical(messages), messages);
  }

  lemma CollectedAscends(tables: seq<seq<Message>>, pages: nat, messages: seq<Message>)
    requires IsHistory(tables) && pages <= |tables| && Collected(tables, pages, messages)
    ensures Ascends(messages) && Canonical(messages) == messages
  {
    forall i, j | 0 <= i < j < |messages|
      ensures messages[i].sequence < messages[j].sequence && messages[i].messageId != messages[j].messageId
    {
      var a, b := tables[i / PAGE], tables[j / PAGE];
      assert i / PAGE <= j / PAGE;
      assert Extends(a, b) && IsTable(b);
    }
    CanonicalOfAscending(messages);
  }

  function CursorAfter(messages: seq<Message>): Option<string> {
    if messages == [] then None else Some(Decimal(messages[|messages| - 1].sequence))
  }

  predicate AllOverflow(tables: seq<seq<Message>>, pages: nat)
    requires pages <= |tables|
  {
    forall j :: 0 <= j < pages ==> |tables[j]| > PAGE * (j + 1)
  }

  /** Request `p` gets the page after the rows collected so far, of the table as it then is. */
  lemma PageOf(tables: seq<seq<Message>>, p: nat, messages: seq<Message>)
    requires IsHistory(tables) && p < |tables| && |messages| == PAGE * p && Collected(tables, p, messages) && AllOverflow(tables, p)
    ensures |tables[p]| >= PAGE * p
    ensures List(tables[p], CursorAfter(messages), PAGE) ==
      if |tables[p]| > PAGE * (p + 1)
      then Some(Page(tables[p][PAGE * p..PAGE * (p + 1)], Some(Decimal(tables[p][PAGE * (p + 1) - 1].sequence))))
      else Some(Page(tables[p][PAGE * p..], None))
  {
    hide Decimal, Collected;
    var rows := tables[p];
    if p == 0 {
      assert rows[0..] == rows;
    } else {
      TailRow(tables, p, messages);
      hide IsHistory, AllOverflow;
      PageAt(rows, PAGE * p, PAGE);
      assert CursorAfter(messages) == Some(Decimal(rows[PAGE * p - 1].sequence));
    }
  }

  lemma TailRow(tables: seq<seq<Message>>, p: nat, messages: seq<Message>)
    requires IsHistory(tables) && 0 < p < |tables| && |messages| == PAGE * p && Collected(tables, p, messages) && AllOverflow(tables, p)
    ensures IsTable(tables[p]) && |tables[p]| > PAGE * p
    ensures messages[PAGE * p - 1].sequence == tables[p][PAGE * p - 1].sequence
  {
    var tail := PAGE * p - 1;
    assert |tables[p - 1]| > PAGE * p && Extends(tables[p - 1], tables[p]);
    assert tail / PAGE == p - 1 && messages[tail] == tables[p - 1][tail];
  }

  lemma CollectMore(tables: seq<seq<Message>>, p: nat, messages: seq<Message>, more: seq<Message>)
    requires p < |tables| && |messages| == PAGE * p && Collected(tables, p, messages) && |tables[p]| >= PAGE * p
    requires |more| <= PAGE && |more| <= |tables[p]| - PAGE * p && more == tables[p][PAGE * p..PAGE * p + |more|]
    ensures Collected(tables, p + 1, messages + more)
  {
    var all := messages + more;
    forall j | 0 <= j < |all| ensures j / PAGE < p + 1 && j < |tables[j / PAGE]| && all[j] == tables[j / PAGE][j] {
      if j >= |messages| {
        assert j / PAGE == p;
        assert all[j] == more[j - PAGE * p];
      }
    }
  }

  predicate CursorOf(messages: seq<Message>, c: string) { exists j :: 0 <= j < |messages| && c == Decimal(messages[j].sequence) }

  /** A later row's cursor differs from every earlier one's. */
  lemma CursorIsNew(messages: seq<Message>, n: nat, seen: set<string>)
    requires Ascends(messages) && n < |messages| && forall c <- seen :: CursorOf(messages[..n], c)
    ensures CursorAfter(messages).value !in seen
  {
    var last := messages[|messages| - 1];
    forall c | c in seen ensures c != Decimal(last.sequence) {
      var j :| 0 <= j < n && c == Decimal(messages[..n][j].sequence);
      assert messages[j].sequence != last.sequence;
      DecimalReads(messages[j].sequence);
      DecimalReads(last.sequence);
    }
  }

  /** What holds before each request. */
  predicate Reading(tables: seq<seq<Message>>, p: nat, messages: seq<Message>, seen: set<string>) {
    && p <= |tables| && |messages| == PAGE * p && Collected(tables, p, messages) && AllOverflow(tables, p)
    && forall c <- seen :: CursorOf(messages, c)
  }

  predicate FitsFirst(tables: seq<seq<Message>>, k: nat, size: nat) {
    k < |tables| && AllOverflow(tables, k) && size == |tables[k]| <= PAGE * (k + 1)
  }

  /** Everything in the first table that fits the pages read. */
  predicate Complete(tables: seq<seq<Message>>, messages: seq<Message>) {
    Collected(tables, |tables|, messages) && exists k :: 0 <= k < |tables| && FitsFirst(tables, k, |messages|)
  }

  lemma LastPageCompletes(tables: seq<seq<Message>>, p: nat, messages: seq<Message>, seen: set<string>, page: Page)
    requires IsHistory(tables) && p < |tables| && Reading(tables, p, messages, seen)
    requires List(tables[p], CursorAfter(messages), PAGE) == Some(page) && page.nextCursor.None?
    ensures Complete(tables, messages + page.data) && Canonical(messages + page.data) == messages + page.data
  {
    PageOf(tables, p, messages);
    CollectMore(tables, p, messages, page.data);
    CollectedAscends(tables, p + 1, messages + page.data);
    assert FitsFirst(tables, p, |messages + page.data|);
  }

  lemma FullPageIs(tables: seq<seq<Message>>, p: nat, messages: seq<Message>, page: Page)
    requires IsHistory(tables) && p < |tables| && |messages| == PAGE * p && Collected(tables, p, messages) && AllOverflow(tables, p)
    requires List(tables[p], CursorAfter(messages), PAGE) == Some(page) && page.nextCursor.Some?
    ensures |page.data| == PAGE && Collected(tables, p + 1, messages + page.data) && AllOverflow(tables, p + 1)
    ensures CursorAfter(messages + page.data) == page.nextCursor && Ascends(messages + page.data)
    ensures (messages + page.data)[..|messages|] == messages
  {
    hide List, Canonical, Collected, Decimal, IsHistory;
    PageOf(tables, p, messages);
    CollectMore(tables, p, messages, page.data);
    CollectedAscends(tables, p + 1, messages + page.data);
    assert page.data[PAGE - 1] == tables[p][PAGE * (p + 1) - 1];
  }

  lemma FullPageGoesOn(tables: seq<seq<Message>>, p: nat, messages: seq<Message>, seen: set<string>, page: Page)
    requires IsHistory(tables) && p < |tables| && Reading(tables, p, messages, seen)
    requires List(tables[p], CursorAfter(messages), PAGE) == Some(page) && page.nextCursor.Some?
    ensures var next := page.nextCursor.value; var all := messages + page.data;
      Reading(tables, p + 1, all, seen + {next}) && CursorAfter(all) == Some(next) && next !in seen
  {
    hide List, Canonical, Collected, Decimal, IsHistory, CursorOf, AllOverflow;
    FullPageIs(tables, p, messages, page);
    var next := page.nextCursor.value;
    var all := messages + page.data;
    CursorIsNew(all, |messages|, seen);
    forall c | c in seen + {next} ensures CursorOf(all, c) {
      SeenGrows(messages, page.data, c);
    }
  }

  lemma SeenGrows(messages: seq<Message>, more: seq<Message>, c: string)
    requires more != [] && (CursorOf(messages, c) || Some(c) == CursorAfter(messages + more))
    ensures CursorOf(messages + more, c)
  {
    var all := messages + more;
    if CursorOf(messages, c) {
      var j :| 0 <= j < |messages| && c == Decimal(messages[j].sequence);
      assert all[j] == messages[j];
    } else {
      assert c == Decimal(all[|all| - 1].sequence);
    }
  }

  /** Reads page after page, `tables[k]` being the table when request `k` is answered. The loop ends
      with the first table that fits the pages read so far, never on an invalid or repeated cursor,
      and fails exactly when none of them fits. */
  method ListMessages(tables: seq<seq<Message>>) returns (result: Result<seq<Message>, Error>)
    requires IsHistory(tables)
    ensures result.Failure? ==> result.error == TooManyPages && AllOverflow(tables, |tables|)
    ensures result.Success? ==> Complete(tables, result.value)
  {
    hide List, Canonical, Collected, Decimal;
    var messages := [];
    var cursor: Option<string> := None;
    var seenCursors: set<string> := {};
    var outcome: Option<Result<seq<Message>, Error>> := None;
    var pageNumber := 0;
    CollectedNothing(tables);
    while pageNumber < |tables| && outcome.None?
      invariant 0 <= pageNumber <= |tables|
      invariant outcome.None? ==> Reading(tables, pageNumber, messages, seenCursors) && cursor == CursorAfter(messages)
      invariant outcome.Some? ==> outcome.value.Success? && Complete(tables, outcome.value.value)
      decreases |tables| - pageNumber, outcome.None?
    {
      PageOf(tables, pageNumber, messages);
      var page := List(tables[pageNumber], cursor, PAGE);
      if page.None? {
        outcome := Some(Failure(InvalidCursor));
      } else {
        if page.value.nextCursor.None? {
          LastPageCompletes(tables, pageNumber, messages, seenCursors, page.value);
          messages := messages + page.value.data;
          outcome := Some(Success(Canonical(messages)));
        } else {
          FullPageGoesOn(tables, pageNumber, messages, seenCursors, page.value);
          messages := messages + page.value.data;
          cursor := page.value.nextCursor;
          if cursor.value in seenCursors {
            outcome := Some(Failure(RepeatedCursor));
          }
          seenCursors := seenCursors + {cursor.value};
          pageNumber := pageNumber + 1;
        }
      }
    }
    result := if outcome.Some? then outcome.value else Failure(TooManyPages);
  }

  lemma CollectedNothing(tables: seq<seq<Message>>)
    ensures Collected(tables, 0, [])
  {}

  /** So every message that existed at the first request is returned, once, in order. */
  lemma NothingIsMissed(tables: seq<seq<Message>>, messages: seq<Message>, i: nat)
    requires IsHistory(tables) && tables != [] && Complete(tables, messages) && i < |tables[0]|
    ensures i < |messages| && messages[i].messageId == tables[0][i].messageId && messages[i].sequence == tables[0][i].sequence
    ensures Ascends(messages)
  {
    var k :| 0 <= k < |tables| && FitsFirst(tables, k, |messages|);
    assert Extends(tables[0], tables[k]);
    assert Extends(tables[0], tables[i / PAGE]);
    CollectedAscends(tables, |tables|, messages);
  }
}
