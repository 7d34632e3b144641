/** window_manager.c without the drawing: the list of windows from back to front, linked through arrays, the
    message rings, and what pressing the mouse button does. */
module WindowManager {
  import opened Sequences

  const MAX_WINDOW_CNT: nat := 50
  const MSG_BUF_SIZE: nat := 50
  const TITLE_HEIGHT: int := 28

  // ---- message rings

  datatype Message = Message(msgType: int, params: seq<int>)

  /** Place k of a ring, for a k that has gone round at most once. */
  function Wrap(k: nat): nat {
    if k >= MSG_BUF_SIZE then k - MSG_BUF_SIZE else k
  }

  class MessageQueue {
    const data: array<Message>
    var front: nat
    var rear: nat
    var cnt: nat

    ghost predicate Valid()
      reads this
    {
      data.Length == MSG_BUF_SIZE && front < MSG_BUF_SIZE && cnt <= MSG_BUF_SIZE && rear == Wrap(front + cnt)
    }

    /** The messages that wait, oldest first. */
    ghost function Contents(): (s: seq<Message>)
      reads this, data
      requires Valid()
    {
      seq(cnt, i requires 0 <= i < cnt && Valid() reads this, data => data[Wrap(front + i)])
    }

    constructor ()
      ensures Valid() && fresh(data) && Contents() == []
    {
      data := new Message[MSG_BUF_SIZE](_ => Message(0, []));
      front, rear, cnt := 0, 0, 0;
    }

    /** initMessageQueue */
    method Clear()
      requires Valid()
      modifies this
      ensures Valid() && Contents() == []
    {
      front, rear, cnt := 0, 0, 0;
    }

    /** dispatchMessage: a full ring drops the message. */
    method Dispatch(msg: Message) returns (r: int)
      requires Valid()
      modifies this, data
      ensures Valid()
      ensures if |old(Contents())| == MSG_BUF_SIZE then r == 1 && Contents() == old(Contents())
              else r == 0 && Contents() == old(Contents()) + [msg]
    {
      if cnt >= MSG_BUF_SIZE {
        return 1;
      }
      ghost var was := Contents();
      cnt := cnt + 1;
      data[rear] := msg;
      rear := rear + 1;
      if rear >= MSG_BUF_SIZE {
        rear := 0;
      }
      forall i | 0 <= i < cnt ensures Contents()[i] == (was + [msg])[i] {
      }
      return 0;
    }

    /** getMessage */
    method Get() returns (r: int, result: Message)
      requires Valid()
      modifies this
      ensures Valid()
      ensures if old(Contents()) == [] then r == 1 && Contents() == []
              else r == 0 && [result] + Contents() == old(Contents())
    {
      result := Message(0, []);
      if cnt == 0 {
        return 1, result;
      }
      ghost var was := Contents();
      assert forall i :: 0 <= i < cnt ==> was[i] == data[Wrap(front + i)];
      cnt := cnt - 1;
      result := data[front];
      front := front + 1;
      if front >= MSG_BUF_SIZE {
        front := 0;
      }
      forall i | 0 <= i < cnt ensures Contents()[i] == was[i + 1] {
        assert Wrap(front + i) == Wrap(old(front) + (i + 1));
        assert was[i + 1] == data[Wrap(old(front) + (i + 1))];
      }
      assert was[0] == data[old(front)] && [result] + Contents() == was;
      return 0, result;
    }
  }

  // ---- the list

  /** Window order[k] is linked to its neighbours. */
  predicate LinkOk(prev: seq<int>, next: seq<int>, order: seq<nat>, k: nat)
    requires k < |order|
  {
    var w := order[k];
    && w < |prev| == |next|
    && prev[w] == (if k == 0 then -1 else order[k - 1])
    && next[w] == (if k + 1 == |order| then -1 else order[k + 1])
  }

  /** The arrays and the two ends spell out order, back to front. */
  ghost predicate Spells(prev: seq<int>, next: seq<int>, head: int, tail: int, order: seq<nat>) {
    && |prev| == |next|
    && NoDuplicates(order)
    && head == (if order == [] then -1 else order[0])
    && tail == (if order == [] then -1 else order[|order| - 1])
    && forall k :: 0 <= k < |order| ==> LinkOk(prev, next, order, k)
  }

  /** links[i] = v, for an i in range */
  function Set(links: seq<int>, i: int, v: int): seq<int> {
    if 0 <= i < |links| then links[i := v] else links
  }

  /** The window moved to the front. */
  function Focused(order: seq<nat>, w: nat): seq<nat> {
    if w in order then var k := IndexOf(order, w); Without(order, k) + [w] else order
  }

  function IndexOf(order: seq<nat>, w: nat): (k: nat)
    requires w in order
    ensures k < |order| && order[k] == w
  {
    if order[0] == w then 0 else 1 + IndexOf(order[1..], w)
  }

  /** addToWindowList */
  lemma Append(prev: seq<int>, next: seq<int>, head: int, tail: int, order: seq<nat>, w: nat)
    requires Spells(prev, next, head, tail, order) && w < |prev| && w !in order
    ensures Spells(Set(prev, w, tail), Set(Set(next, w, -1), tail, w), if order == [] then w else head, w, order + [w])
  {
    var prev', next', order' := Set(prev, w, tail), Set(Set(next, w, -1), tail, w), order + [w];
    if order != [] {
      assert LinkOk(prev, next, order, |order| - 1);
    }
    forall k | 0 <= k < |order'| ensures LinkOk(prev', next', order', k) {
      if k < |order| {
        assert LinkOk(prev, next, order, k) && order[k] in order;
        assert k + 1 < |order| ==> order[k] != order[|order| - 1];
      }
    }
  }

  lemma SkipMember(order: seq<nat>, k: nat, i: nat)
    requires k < |order| && i < |order| - 1
    ensures Without(order, k)[i] == order[if i < k then i else i + 1]
  {
  }

  /** What removeFromWindowList does to the links around order[k]. */
  lemma Remove(prev: seq<int>, next: seq<int>, head: int, tail: int, order: seq<nat>, k: nat)
    requires Spells(prev, next, head, tail, order) && k < |order|
    ensures LinkOk(prev, next, order, k)
    ensures var w := order[k];
      var next' := Set(next, prev[w], next[w]);
      var prev' := Set(prev, next[w], prev[w]);
      Spells(prev', next', if k == 0 then next[w] else head, if k + 1 == |order| then prev[w] else tail, Without(order, k))
  {
    assert LinkOk(prev, next, order, k);
    var w, order' := order[k], Without(order, k);
    var next', prev' := Set(next, prev[w], next[w]), Set(prev, next[w], prev[w]);
    if k > 0 {
      assert LinkOk(prev, next, order, k - 1);
    }
    if k + 1 < |order| {
      assert LinkOk(prev, next, order, k + 1);
    }
    forall i | 0 <= i < |order'| ensures LinkOk(prev', next', order', i) {
      RemoveAt(prev, next, head, tail, order, k, i);
    }
  }

  lemma RemoveAt(prev: seq<int>, next: seq<int>, head: int, tail: int, order: seq<nat>, k: nat, i: nat)
    requires Spells(prev, next, head, tail, order) && k < |order| && i < |order| - 1
    requires LinkOk(prev, next, order, k)
    requires k > 0 ==> LinkOk(prev, next, order, k - 1)
    requires k + 1 < |order| ==> LinkOk(prev, next, order, k + 1)
    ensures var w := order[k];
      var next' := Set(next, prev[w], next[w]);
      var prev' := Set(prev, next[w], prev[w]);
      LinkOk(prev', next', Without(order, k), i)
  {
    var j := if i < k then i else i + 1;
    assert LinkOk(prev, next, order, j);
    SkipMember(order, k, i);
    if i > 0 {
      SkipMember(order, k, i - 1);
    }
    if i + 1 < |order| - 1 {
      SkipMember(order, k, i + 1);
    }
    assert k > 0 ==> (order[j] == order[k - 1] ==> j == k - 1);
    assert k + 1 < |order| ==> (order[j] == order[k + 1] ==> j == k + 1);
  }

  lemma NoSelfLink(prev: seq<int>, next: seq<int>, head: int, tail: int, order: seq<nat>)
    requires Spells(prev, next, head, tail, order) && order != []
    ensures order[0] < |next| && next[order[0]] != order[0]
  {
    assert LinkOk(prev, next, order, 0);
    assert |order| > 1 ==> order[0] != order[1];
  }

  /** When next of the head is the head itself the links spell out nothing. */
  lemma LoopSpellsNothing(prev: seq<int>, next: seq<int>, head: int, tail: int, order: seq<nat>)
    requires 0 <= head < |next| && next[head] == head
    ensures !Spells(prev, next, head, tail, order)
  {
    if Spells(prev, next, head, tail, order) {
      NoSelfLink(prev, next, head, tail, order);
    }
  }

  // ---- windows

  datatype Rect = Rect(xmin: int, ymin: int, xmax: int, ymax: int)

  predicate InRect(xmin: int, ymin: int, xmax: int, ymax: int, x: int, y: int) {
    x >= xmin && x <= xmax && y >= ymin && y <= ymax
  }

  /** Pressing the button at (x, y) picks window w: it is not the desktop, not minimised, and under the mouse
      with its title bar. */
  predicate Picks(position: seq<Rect>, minimized: seq<bool>, desktop: int, w: nat, x: int, y: int) {
    && w < |position| && w < |minimized| && w != desktop && !minimized[w]
    && InRect(position[w].xmin, position[w].ymin - TITLE_HEIGHT, position[w].xmax, position[w].ymax, x, y)
  }

  /** Window order[i] is picked and none in front of it is. */
  ghost predicate TopAt(order: seq<nat>, position: seq<Rect>, minimized: seq<bool>, desktop: int, x: int, y: int, i: nat) {
    && i < |order| && Picks(position, minimized, desktop, order[i], x, y)
    && forall j :: i < j < |order| ==> !Picks(position, minimized, desktop, order[j], x, y)
  }

  /** w is the topmost window that is picked, or the desktop when none is. */
  ghost predicate IsTopmost(order: seq<nat>, position: seq<Rect>, minimized: seq<bool>, desktop: int, x: int, y: int, w: nat) {
    if w == desktop then forall i :: 0 <= i < |order| ==> !Picks(position, minimized, desktop, order[i], x, y)
    else exists i: nat :: TopAt(order, position, minimized, desktop, x, y, i) && order[i] == w
  }

  const M_MOUSE_DOWN: int := 4
  const WM_WINDOW_CLOSE: int := 100
  const WM_WINDOW_MINIMIZE: int := 101

  /** dispatchMessage, on what a ring holds. */
  function Posted(ring: seq<Message>, msg: Message): seq<Message> {
    if |ring| >= MSG_BUF_SIZE then ring else ring + [msg]
  }

  predicate OnTitle(r: Rect, x: int, y: int) {
    InRect(r.xmin, r.ymin - TITLE_HEIGHT, r.xmax, r.ymin, x, y)
  }

  predicate OnContent(r: Rect, x: int, y: int) {
    InRect(r.xmin, r.ymin, r.xmax, r.ymax, x, y)
  }

  /** What the title bar of window r is told. */
  function TitleMessages(r: Rect, x: int, y: int): seq<Message> {
    if !OnTitle(r, x, y) || x + 60 <= r.xmax then []
    else [Message(if x + 30 > r.xmax then WM_WINDOW_CLOSE else WM_WINDOW_MINIMIZE, [])]
  }

  /** What drawWindowBar paints in a column of the title bar: from the right the close box, the minimise box, the bar. */
  datatype Box = CloseBox | MinimizeBox | Bar

  function Painted(r: Rect, x: int): Box {
    if x >= r.xmax + 1 - TITLE_HEIGHT then CloseBox else if x >= r.xmax + 1 - 2 * TITLE_HEIGHT then MinimizeBox else Bar
  }

  function BoxMessages(box: Box): seq<Message> {
    match box
    case CloseBox => [Message(WM_WINDOW_CLOSE, [])]
    case MinimizeBox => [Message(WM_WINDOW_MINIMIZE, [])]
    case Bar => []
  }

  /** A press on the title bar does what the box under the mouse stands for, unless it hits one of the two columns of
      the minimise box next to the close box, or one of the four of the bar next to the minimise box. */
  lemma PressedIsPainted(r: Rect, x: int, y: int)
    requires OnTitle(r, x, y)
    ensures TitleMessages(r, x, y) == BoxMessages(Painted(r, x)) <==>
      !(r.xmax - 30 < x <= r.xmax - TITLE_HEIGHT) && !(r.xmax - 60 < x <= r.xmax - 2 * TITLE_HEIGHT)
    ensures r.xmax - 30 < x <= r.xmax - TITLE_HEIGHT ==>
      Painted(r, x) == MinimizeBox && TitleMessages(r, x, y) == [Message(WM_WINDOW_CLOSE, [])]
  {
    assert Message(WM_WINDOW_CLOSE, []) != Message(WM_WINDOW_MINIMIZE, []);
  }

  /** What its content is told: the source takes the coordinates from the corner of the popup, not of the window. */
  function ContentMessages(r: Rect, corner: Rect, x: int, y: int): seq<Message> {
    if OnContent(r, x, y) then [Message(M_MOUSE_DOWN, [x - corner.xmin, y - corner.ymin])] else []
  }

  function AllPosted(ring: seq<Message>, msgs: seq<Message>): seq<Message>
    decreases |msgs|
  {
    if msgs == [] then ring else AllPosted(Posted(ring, msgs[0]), msgs[1..])
  }

  lemma PostedOnce(ring: seq<Message>, msgs: seq<Message>)
    requires |msgs| <= 1
    ensures AllPosted(ring, msgs) == if msgs == [] then ring else Posted(ring, msgs[0])
  {
  }

  /** x / 2 rounds toward zero. */
  function Half(x: int): int {
    if x >= 0 then x / 2 else -((-x) / 2)
  }

  /** Where createWindow puts a window: as asked if that is on the screen and of the right size, else in the middle. */
  function Placed(r: Rect, width: int, height: int, screenWidth: nat, screenHeight: nat): Rect {
    if && r.xmin >= 0 && r.xmax <= screenWidth && r.ymin >= 0 && r.ymax <= screenHeight
       && r.xmax - r.xmin == width && r.ymax - r.ymin == height
    then r
    else Rect(screenWidth / 2 - Half(width), screenHeight / 2 - Half(height),
              screenWidth / 2 + Half(width), screenHeight / 2 + Half(height))
  }

  /** A window that is no larger than the screen is placed on it, whatever position it asks for. */
  lemma PlacedOnScreen(r: Rect, width: nat, height: nat, screenWidth: nat, screenHeight: nat)
    requires width <= screenWidth && height <= screenHeight
    ensures var p := Placed(r, width, height, screenWidth, screenHeight);
      && 0 <= p.xmin <= p.xmax <= screenWidth && 0 <= p.ymin <= p.ymax <= screenHeight
      && width - 1 <= p.xmax - p.xmin <= width && height - 1 <= p.ymax - p.ymin <= height
  {
  }

  /** A window that asks for a position of its own size on the screen gets it, and any other is put in the middle. */
  lemma PlacedAsAsked(r: Rect, width: nat, height: nat, screenWidth: nat, screenHeight: nat)
    ensures var p := Placed(r, width, height, screenWidth, screenHeight);
      if && (forall x, y :: InRect(r.xmin, r.ymin, r.xmax, r.ymax, x, y) ==> InRect(0, 0, screenWidth, screenHeight, x, y))
         && r.xmin <= r.xmax && r.ymin <= r.ymax && r.xmax - r.xmin == width && r.ymax - r.ymin == height
      then p == r
      else p.xmin + p.xmax == screenWidth - screenWidth % 2 && p.ymin + p.ymax == screenHeight - screenHeight % 2
  {
    assert r.xmin <= r.xmax && r.ymin <= r.ymax ==> InRect(r.xmin, r.ymin, r.xmax, r.ymax, r.xmin, r.ymin);
    assert r.xmin <= r.xmax && r.ymin <= r.ymax ==> InRect(r.xmin, r.ymin, r.xmax, r.ymax, r.xmax, r.ymax);
  }

  ghost predicate AllUsed(order: seq<nat>) {
    forall i :: 0 <= i < MAX_WINDOW_CNT ==> i in order
  }

  lemma IndexIs(order: seq<nat>, k: nat)
    requires NoDuplicates(order) && k < |order|
    ensures order[k] in order && IndexOf(order, order[k]) == k
  {
    assert order[IndexOf(order, order[k])] == order[k];
  }

  lemma UsedAreLinked(prev: seq<int>, next: seq<int>, head: int, tail: int, order: seq<nat>, w: nat)
    requires Spells(prev, next, head, tail, order) && w in order
    ensures w < |next| && next[w] != w
  {
    var k :| 0 <= k < |order| && order[k] == w;
    assert LinkOk(prev, next, order, k);
    assert k + 1 < |order| ==> order[k] != order[k + 1];
  }

  class Windows {
    const next: array<int>
    const prev: array<int>
    const position: array<Rect>
    const minimized: array<bool>
    const inbox: array<seq<Message>>  // what each window's ring holds
    const screenWidth: nat
    const screenHeight: nat
    var popupInbox: seq<Message>
    var head: int
    var tail: int
    var desktopId: int
    var popupCaller: int
    var popup: Rect
    var clickedOnTitle: bool
    var clickedOnContent: bool
    var clickedOnPopup: bool
    ghost var order: seq<nat>         // the windows, back to front

    ghost predicate Valid()
      reads this, next, prev
    {
      && next.Length == prev.Length == position.Length == minimized.Length == inbox.Length == MAX_WINDOW_CNT
      && next != prev
      && Spells(prev[..], next[..], head, tail, order) == true
      && forall i :: 0 <= i < MAX_WINDOW_CNT && i !in order ==> prev[i] == i && next[i] == i
    }

    /** wmInit */
    constructor (width: nat, height: nat)
      ensures Valid() && order == [] && desktopId == -1 && popupCaller == -1
      ensures fresh(next) && fresh(prev) && fresh(position) && fresh(minimized) && fresh(inbox)
      ensures screenWidth == width && screenHeight == height
    {
      screenWidth, screenHeight := width, height;
      inbox := new seq<Message>[MAX_WINDOW_CNT](_ => []);
      popupInbox := [];
      next := new int[MAX_WINDOW_CNT](i => i);
      prev := new int[MAX_WINDOW_CNT](i => i);
      position := new Rect[MAX_WINDOW_CNT](_ => Rect(0, 0, 0, 0));
      minimized := new bool[MAX_WINDOW_CNT](_ => false);
      head, tail, desktopId, popupCaller := -1, -1, -1, -1;
      popup := Rect(0, 0, 0, 0);
      clickedOnTitle, clickedOnContent, clickedOnPopup := false, false, false;
      order := [];
    }

    method FindNextAvailableWindowId() returns (r: int)
      requires Valid()
      ensures if r == -1 then forall i :: 0 <= i < MAX_WINDOW_CNT ==> i in order
              else 0 <= r < MAX_WINDOW_CNT && r !in order && forall i :: 0 <= i < r ==> i in order
    {
      var i := 0;
      while i < MAX_WINDOW_CNT
        invariant 0 <= i <= MAX_WINDOW_CNT && forall j :: 0 <= j < i ==> j in order
      {
        if prev[i] == i && next[i] == i {
          if i in order {
            UsedAreLinked(prev[..], next[..], head, tail, order, i);
          }
          return i;
        }
        i := i + 1;
      }
      return -1;
    }

    /** addToWindowList; the head is the caller's to set when the list is empty. */
    method AddToWindowList(idx: nat)
      requires idx < MAX_WINDOW_CNT && next.Length == prev.Length == MAX_WINDOW_CNT && next != prev
      requires idx !in order && Spells(prev[..], next[..], if order == [] then -1 else head, tail, order)
      requires order == [] ==> head == idx
      modifies `tail, `order, next, prev
      ensures order == old(order) + [idx] && Spells(prev[..], next[..], head, tail, order) == true
      ensures forall i :: 0 <= i < MAX_WINDOW_CNT && i !in order ==> prev[i] == old(prev[i]) && next[i] == old(next[i])
    {
      Append(prev[..], next[..], if order == [] then -1 else head, tail, order, idx);
      ghost var p, n, o := prev[..], next[..], order;
      if order != [] {
        assert LinkOk(p, n, order, |order| - 1);
      }
      prev[idx] := tail;
      next[idx] := -1;
      if tail != -1 {
        next[tail] := idx;
      }
      assert prev[..] == Set(p, idx, tail) && next[..] == Set(Set(n, idx, -1), tail, idx);
      tail := idx;
      order := order + [idx];
      assert o != [] ==> o[|o| - 1] in order;
    }

    /** focusWindow */
    method FocusWindow(winId: int)
      requires Valid() && (winId == -1 || (0 <= winId && winId in order))
      modifies `head, `tail, `order, next, prev
      ensures Valid()
      ensures order == if winId == -1 then old(order) else Focused(old(order), winId)
      ensures winId != -1 ==> tail == winId
    {
      if winId == -1 {
        return;
      }
      ghost var p, n, o, k := prev[..], next[..], order, IndexOf(order, winId);
      IndexIs(o, |o| - 1);
      if winId == tail {
        assert o == Without(o, |o| - 1) + [winId];
        return;
      }
      Remove(p, n, head, tail, o, k);
      Neighbours(p, n, head, tail, o, k);
      if winId == head {
        var newhead := next[winId];
        prev[newhead] := -1;
        head := newhead;
        IndexIs(o, 0);
      } else {
        var prevWin := prev[winId];
        var nextWin := next[winId];
        next[prevWin] := nextWin;
        prev[nextWin] := prevWin;
      }
      assert prev[..] == Set(p, n[winId], p[winId]) && next[..] == Set(n, p[winId], n[winId]);
      order := Without(o, k);
      WithoutMembers(o, k);
      assert order != [];
      AddToWindowList(winId);
    }

    /** createWindow; r is 0 and winId the new window, or r is 1 and there is no room. */
    method CreateWindow(pos: Rect, width: int, height: int) returns (r: int, winId: int)
      requires Valid()
      modifies `head, `tail, `order, `desktopId, next, prev, position, minimized, inbox
      ensures Valid()
      ensures r == (if AllUsed(old(order)) then 1 else 0)
      ensures r == 1 ==> unchanged(this, next, prev, position, minimized, inbox)
      ensures r == 0 ==> 0 <= winId < MAX_WINDOW_CNT && winId !in old(order) && order == old(order) + [winId]
      ensures r == 0 ==> forall i :: 0 <= i < winId ==> i in old(order)
      ensures r == 0 ==> position[..] == old(position[..])[winId := Placed(pos, width, height, screenWidth, screenHeight)]
      ensures r == 0 ==> minimized[..] == old(minimized[..])[winId := false] && inbox[..] == old(inbox[..])[winId := []]
      ensures r == 0 ==> desktopId == if old(desktopId) == -1 then winId else old(desktopId)
    {
      winId := FindNextAvailableWindowId();
      if winId == -1 {
        return 1, winId;
      }
      if head == -1 {
        head := winId;
      }
      AddToWindowList(winId);
      if desktopId == -1 {
        desktopId := winId;
      }
      if && pos.xmin >= 0 && pos.xmax <= screenWidth && pos.ymin >= 0 && pos.ymax <= screenHeight
         && pos.xmax - pos.xmin == width && pos.ymax - pos.ymin == height
      {
        position[winId] := pos;
      } else {
        position[winId] := Rect(screenWidth / 2 - Half(width), screenHeight / 2 - Half(height),
                                screenWidth / 2 + Half(width), screenHeight / 2 + Half(height));
      }
      minimized[winId] := false;
      inbox[winId] := [];
      return 0, winId;
    }

    /** removeFromWindowList, and the self-links that closeWindow then makes. The list is right exactly when
        the window was not its head: the head is never moved. The source's last test, whether the window is still
        the tail, never holds. */
    method CloseWindow(winId: nat)
      requires Valid() && winId in order
      modifies `tail, `order, next, prev, inbox
      ensures winId < inbox.Length && inbox[..] == old(inbox[..])[winId := []]
      ensures old(head) != winId ==> Valid() && order == Without(old(order), IndexOf(old(order), winId))
      ensures old(head) == winId ==> forall o :: !Spells(prev[..], next[..], head, tail, o)
    {
      ghost var p, n, o, k := prev[..], next[..], order, IndexOf(order, winId);
      Remove(p, n, head, tail, o, k);
      Neighbours(p, n, head, tail, o, k);
      WithoutMembers(o, k);
      if tail == winId {
        tail := prev[tail];
      }
      if prev[winId] != -1 {
        next[prev[winId]] := next[winId];
      }
      if next[winId] != -1 {
        prev[next[winId]] := prev[winId];
      }
      assert prev[..] == Set(p, n[winId], p[winId]) && next[..] == Set(n, p[winId], n[winId]);
      ghost var p1, n1 := prev[..], next[..];
      prev[winId] := winId;
      next[winId] := winId;
      inbox[winId] := [];
      assert tail != winId;
      if head == winId {
        forall q ensures !Spells(prev[..], next[..], head, tail, q) {
          LoopSpellsNothing(prev[..], next[..], head, tail, q);
        }
      } else {
        order := Without(o, k);
        SelfLinkIsForeign(p1, n1, prev[..], next[..], head, tail, order, winId);
      }
    }

    /** minimizeWindow: the window in front gives way to the one behind it. */
    method MinimizeWindow(winId: nat)
      requires Valid() && winId in order
      modifies `head, `tail, `order, next, prev, minimized
      ensures Valid()
      ensures order == if |old(order)| > 1 && old(order)[|old(order)| - 1] == winId
                       then Focused(old(order), old(order)[|old(order)| - 2]) else old(order)
      ensures winId < minimized.Length && minimized[winId]
      ensures forall i :: 0 <= i < MAX_WINDOW_CNT && i != winId ==> minimized[i] == old(minimized[i])
    {
      UsedAreLinked(prev[..], next[..], head, tail, order, winId);
      minimized[winId] := true;
      if winId == tail {
        assert LinkOk(prev[..], next[..], order, |order| - 1);
        FocusWindow(prev[winId]);
      }
    }

    predicate HitsPopup(x: int, y: int)
      reads this
    {
      popupCaller != -1 && OnContent(popup, x, y)
    }

    /** The case M_MOUSE_DOWN of wmHandleMessage, at mouse position (x, y). */
    method MouseDown(x: int, y: int) returns (onPopup: bool)
      requires Valid() && 0 <= desktopId && desktopId in order
      modifies `head, `tail, `order, `clickedOnTitle, `clickedOnContent, `clickedOnPopup, `popupInbox, next, prev, inbox
      ensures Valid() && onPopup == old(HitsPopup(x, y))
      ensures onPopup ==>
        && order == old(order) && popupInbox == old(popupInbox) && inbox[..] == old(inbox[..]) && clickedOnPopup
        && clickedOnTitle == old(clickedOnTitle) && clickedOnContent == old(clickedOnContent)
      ensures !onPopup ==> 0 <= tail < position.Length && clickedOnPopup == old(clickedOnPopup)
      ensures !onPopup ==> IsTopmost(old(order), position[..], minimized[..], desktopId, x, y, tail) == true
      ensures !onPopup ==> order == Focused(old(order), tail)
      ensures !onPopup ==> popupInbox == Posted(old(popupInbox), Message(WM_WINDOW_CLOSE, []))
      ensures !onPopup ==> Reacted(x, y, old(inbox[..]), old(clickedOnTitle), old(clickedOnContent)) == true
    {
      if popupCaller != -1 && InRect(popup.xmin, popup.ymin, popup.xmax, popup.ymax, x, y) {
        clickedOnPopup := true;
        return true;
      }
      onPopup := false;
      PressWindow(x, y);
    }

    /** The mouse is not on the popup. */
    method PressWindow(x: int, y: int)
      requires Valid() && 0 <= desktopId && desktopId in order
      modifies `head, `tail, `order, `clickedOnTitle, `clickedOnContent, `popupInbox, next, prev, inbox
      ensures Valid() && 0 <= tail < position.Length
      ensures IsTopmost(old(order), position[..], minimized[..], desktopId, x, y, tail) == true
      ensures order == Focused(old(order), tail)
      ensures popupInbox == Posted(old(popupInbox), Message(WM_WINDOW_CLOSE, []))
      ensures Reacted(x, y, old(inbox[..]), old(clickedOnTitle), old(clickedOnContent)) == true
    {
      popupInbox := Posted(popupInbox, Message(WM_WINDOW_CLOSE, []));
      FocusTopmost(x, y);
      ReactTo(x, y);
    }

    /** What pressing the button does to the window in front: its title bar closes, minimises or starts to be
        dragged, and its content is told; the rings of the other windows stay. */
    ghost predicate Reacted(x: int, y: int, inbox0: seq<seq<Message>>, title0: bool, content0: bool)
      reads this, position, inbox
    {
      && 0 <= tail < position.Length && tail < |inbox0|
      && var r := position[tail];
      && (clickedOnTitle <==> title0 || (OnTitle(r, x, y) && x + 60 <= r.xmax))
      && (clickedOnContent <==> content0 || OnContent(r, x, y))
      && inbox[..] == inbox0[tail := AllPosted(AllPosted(inbox0[tail], TitleMessages(r, x, y)), ContentMessages(r, popup, x, y))]
    }

    /** What follows the choice of the window in front. */
    method ReactTo(x: int, y: int)
      requires Valid() && 0 <= tail < MAX_WINDOW_CNT
      modifies `clickedOnTitle, `clickedOnContent, inbox
      ensures Valid() && Reacted(x, y, old(inbox[..]), old(clickedOnTitle), old(clickedOnContent)) == true
    {
      var win := position[tail];
      ghost var ring0 := inbox[tail];
      PostedOnce(ring0, TitleMessages(win, x, y));
      PostedOnce(AllPosted(ring0, TitleMessages(win, x, y)), ContentMessages(win, popup, x, y));
      PressTitle(win, x, y);
      PressContent(win, x, y);
      assert inbox[..] == old(inbox[..])[tail := inbox[tail]];
    }

    method PressTitle(win: Rect, x: int, y: int)
      requires 0 <= tail < inbox.Length
      modifies `clickedOnTitle, inbox
      ensures clickedOnTitle <==> old(clickedOnTitle) || (OnTitle(win, x, y) && x + 60 <= win.xmax)
      ensures forall w :: 0 <= w < inbox.Length && w != tail ==> inbox[w] == old(inbox[w])
      ensures var msgs := TitleMessages(win, x, y);
        inbox[tail] == if msgs == [] then old(inbox[tail]) else Posted(old(inbox[tail]), msgs[0])
    {
      if InRect(win.xmin, win.ymin - TITLE_HEIGHT, win.xmax, win.ymin, x, y) {
        if x + 30 > win.xmax {
          inbox[tail] := Posted(inbox[tail], Message(WM_WINDOW_CLOSE, []));
        } else if x + 60 > win.xmax && x + 30 <= win.xmax {
          inbox[tail] := Posted(inbox[tail], Message(WM_WINDOW_MINIMIZE, []));
        } else {
          clickedOnTitle := true;
        }
      }
    }

    method PressContent(win: Rect, x: int, y: int)
      requires 0 <= tail < inbox.Length
      modifies `clickedOnContent, inbox
      ensures clickedOnContent <==> old(clickedOnContent) || OnContent(win, x, y)
      ensures forall w :: 0 <= w < inbox.Length && w != tail ==> inbox[w] == old(inbox[w])
      ensures var msgs := ContentMessages(win, popup, x, y);
        inbox[tail] == if msgs == [] then old(inbox[tail]) else Posted(old(inbox[tail]), msgs[0])
    {
      if InRect(win.xmin, win.ymin, win.xmax, win.ymax, x, y) {
        clickedOnContent := true;
        inbox[tail] := Posted(inbox[tail], Message(M_MOUSE_DOWN, [x - popup.xmin, y - popup.ymin]));
      }
    }

    /** The walk from the front to the first window that is picked. */
    method FocusTopmost(x: int, y: int)
      requires Valid() && 0 <= desktopId && desktopId in order
      modifies `head, `tail, `order, next, prev
      ensures Valid() && 0 <= tail < MAX_WINDOW_CNT && order == Focused(old(order), tail)
      ensures IsTopmost(old(order), position[..], minimized[..], desktopId, x, y, tail) == true
    {
      var p := tail;
      ghost var k := |order|;          // the windows from k on are not picked
      while p != -1
        invariant 0 <= k <= |order| && p == (if k == 0 then -1 else order[k - 1])
        invariant forall j :: k <= j < |order| ==> !Picks(position[..], minimized[..], desktopId, order[j], x, y)
        decreases k
      {
        assert LinkOk(prev[..], next[..], order, k - 1);
        var win := position[p];
        if p != desktopId && !minimized[p] && InRect(win.xmin, win.ymin - TITLE_HEIGHT, win.xmax, win.ymax, x, y) {
          assert TopAt(order, position[..], minimized[..], desktopId, x, y, k - 1);
          UsedAreLinked(prev[..], next[..], head, tail, order, p);
          FocusWindow(p);
          return;
        }
        p := prev[p];
        k := k - 1;
      }
      UsedAreLinked(prev[..], next[..], head, tail, order, desktopId);
      FocusWindow(desktopId);
    }
  }

  /** The neighbours of order[k], and where order[k] stands. */
  lemma Neighbours(prev: seq<int>, next: seq<int>, head: int, tail: int, order: seq<nat>, k: nat)
    requires Spells(prev, next, head, tail, order) && k < |order|
    ensures var w := order[k];
      && w < |prev| == |next| && (w == head <==> k == 0) && (w == tail <==> k + 1 == |order|)
      && prev[w] == (if k == 0 then -1 else order[k - 1]) && next[w] == (if k + 1 == |order| then -1 else order[k + 1])
      && (k > 0 ==> order[k - 1] < |prev| && order[k - 1] != w) && (k + 1 < |order| ==> order[k + 1] < |prev| && order[k + 1] != w)
  {
    assert LinkOk(prev, next, order, k);
    if k > 0 {
      assert LinkOk(prev, next, order, k - 1);
    }
    if k + 1 < |order| {
      assert LinkOk(prev, next, order, k + 1);
    }
  }

  lemma WithoutMembers(order: seq<nat>, k: nat)
    requires NoDuplicates(order) && k < |order|
    ensures forall w :: w in Without(order, k) <==> w in order && w != order[k]
  {
    var o := Without(order, k);
    forall w | w in order && w != order[k] ensures w in o {
      var i :| 0 <= i < |order| && order[i] == w;
      assert o[if i < k then i else i - 1] == w;
    }
    forall w | w in o ensures w in order && w != order[k] {
      var i :| 0 <= i < |o| && o[i] == w;
      assert order[if i < k then i else i + 1] == w;
    }
  }

  lemma SelfLinkIsForeign(p0: seq<int>, n0: seq<int>, p1: seq<int>, n1: seq<int>, head: int, tail: int, order: seq<nat>, w: nat)
    requires Spells(p0, n0, head, tail, order) && w !in order && w < |p0|
    requires p1 == p0[w := w] && |n0| == |p0| && n1 == n0[w := w]
    ensures Spells(p1, n1, head, tail, order)
  {
    forall k | 0 <= k < |order| ensures LinkOk(p1, n1, order, k) {
      assert LinkOk(p0, n0, order, k) && order[k] in order;
    }
  }
}
