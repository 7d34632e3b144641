/** The text cursor of an input field (user_handler.c, user_window.c): which character a row and column mean,
    which row and column a character has, where the cursor is drawn, and what the keys do. */
module TextCursor {

  const CHARACTER_WIDTH: int := 9
  const CHARACTER_HEIGHT: int := 18
  const MAX_LONG_STRLEN: nat := 1000
  const BACKSPACE: int := 8
  const KEY_UP: int := 0xE2
  const KEY_DN: int := 0xE3
  const KEY_LF: int := 0xE4
  const KEY_RT: int := 0xE5

  /** width / CHARACTER_WIDTH, rounded toward zero */
  function CharPerLine(width: int): int {
    if width >= 0 then width / CHARACTER_WIDTH else -(-width / CHARACTER_WIDTH)
  }

  /** Column and row. */
  datatype Pos = Pos(x: int, y: int)

  /** Past one character. */
  function Advance(p: Pos, c: char, cpl: int): Pos {
    if c == '\n' || p.x + 1 > cpl then Pos(0, p.y + 1) else Pos(p.x + 1, p.y)
  }

  /** Where the character at an offset stands. */
  function PosOf(str: string, cpl: int, offset: nat): Pos
    requires offset <= |str|
  {
    if offset == 0 then Pos(0, 0) else Advance(PosOf(str, cpl, offset - 1), str[offset - 1], cpl)
  }

  /** A row holds one character more than fit its width: from the start m of a line on, rows are filled with cpl + 1
      characters each until the next end of line, behind which a new row begins. */
  lemma {:induction false} RowsAreFilled(str: string, cpl: nat, m: nat, row: nat, col: nat)
    requires col <= cpl && m + row * (cpl + 1) + col <= |str| && (m == 0 || str[m - 1] == '\n')
    requires forall j :: m <= j < m + row * (cpl + 1) + col ==> str[j] != '\n'
    ensures PosOf(str, cpl, m) == Pos(0, if m == 0 then 0 else PosOf(str, cpl, m - 1).y + 1)
    ensures PosOf(str, cpl, m + row * (cpl + 1) + col) == Pos(col, PosOf(str, cpl, m).y + row)
    decreases row, col
  {
    if col > 0 {
      RowsAreFilled(str, cpl, m, row, col - 1);
    } else if row > 0 {
      assert row * (cpl + 1) == (row - 1) * (cpl + 1) + cpl + 1;
      RowsAreFilled(str, cpl, m, row - 1, cpl);
    }
  }

  // ---- the walks

  method GetMouseX(str: string, width: int, offset: nat) returns (x: int)
    requires offset <= |str|
    ensures x == PosOf(str, CharPerLine(width), offset).x
  {
    var charPerLine := CharPerLine(width);
    var offsetX, offsetY, iter := 0, 0, 0;
    while iter < offset
      invariant 0 <= iter <= offset && Pos(offsetX, offsetY) == PosOf(str, charPerLine, iter)
    {
      if str[iter] != '\n' {
        offsetX := offsetX + 1;
        if offsetX > charPerLine {
          offsetX := 0;
          offsetY := offsetY + 1;
        }
      } else {
        offsetX := 0;
        offsetY := offsetY + 1;
      }
      iter := iter + 1;
    }
    return offsetX;
  }

  method GetMouseY(str: string, width: int, offset: nat) returns (y: int)
    requires offset <= |str|
    ensures y == PosOf(str, CharPerLine(width), offset).y
  {
    var charPerLine := CharPerLine(width);
    var offsetX, offsetY, iter := 0, 0, 0;
    while iter < offset
      invariant 0 <= iter <= offset && Pos(offsetX, offsetY) == PosOf(str, charPerLine, iter)
    {
      if str[iter] != '\n' {
        offsetX := offsetX + 1;
        if offsetX > charPerLine {
          offsetX := 0;
          offsetY := offsetY + 1;
        }
      } else {
        offsetX := 0;
        offsetY := offsetY + 1;
      }
      iter := iter + 1;
    }
    return offsetY;
  }

  /** No character before offset n stands exactly at m. */
  ghost predicate Misses(str: string, cpl: int, m: Pos, n: nat)
    requires n <= |str|
  {
    forall k :: 0 <= k < n ==> PosOf(str, cpl, k) != m
  }

  /** l is the last offset before n in row y, other than 0; 0 when there is none. */
  ghost predicate LastInRow(str: string, cpl: int, y: int, n: nat, l: nat)
    requires n <= |str|
  {
    && (l == 0 || (l < n && PosOf(str, cpl, l).y == y))
    && forall k :: l < k < n ==> PosOf(str, cpl, k).y != y
  }

  /** What a click on column and row m means: the character there; failing that the last one in the row, if it
      is not the first of all; failing that the end. A negative row means the start. */
  ghost predicate IsOffset(str: string, cpl: int, m: Pos, r: nat) {
    && r <= |str|
    && if m.y < 0 then r == 0
       else if r < |str| && PosOf(str, cpl, r) == m then Misses(str, cpl, m, r)
       else Misses(str, cpl, m, |str|) && exists l: nat :: LastInRow(str, cpl, m.y, |str|, l) && r == if l > 0 then l else |str|
  }

  method GetInputOffset(str: string, width: int, mouseX: int, mouseY: int) returns (r: nat)
    ensures IsOffset(str, CharPerLine(width), Pos(mouseX, mouseY), r)
  {
    var charPerLine := CharPerLine(width);
    var offsetX, offsetY, currentPos, firstYMatchPos := 0, 0, 0, 0;
    if mouseY < 0 {
      return 0;
    }
    while currentPos < |str|
      invariant 0 <= currentPos <= |str| && Pos(offsetX, offsetY) == PosOf(str, charPerLine, currentPos)
      invariant Misses(str, charPerLine, Pos(mouseX, mouseY), currentPos)
      invariant 0 <= firstYMatchPos && LastInRow(str, charPerLine, mouseY, currentPos, firstYMatchPos)
    {
      if mouseY == offsetY {
        if mouseX == offsetX {
          return currentPos;
        }
        firstYMatchPos := currentPos;
      }
      if str[currentPos] != '\n' {
        offsetX := offsetX + 1;
        if offsetX > charPerLine {
          offsetX := 0;
          offsetY := offsetY + 1;
        }
      } else {
        offsetX := 0;
        offsetY := offsetY + 1;
      }
      currentPos := currentPos + 1;
    }
    if firstYMatchPos > 0 {
      return firstYMatchPos;
    }
    return currentPos;
  }

  /** The walk of drawInputFieldWidget: the cursor is at (x, y) in pixels. */
  method CursorWalk(text: string, currentPos: nat, width: int, height: int) returns (x: int, y: int)
    requires currentPos <= |text|
    ensures var p := PosOf(text, CharPerLine(width), currentPos);
      if CHARACTER_HEIGHT * p.y <= height then x == CHARACTER_WIDTH * p.x && y == CHARACTER_HEIGHT * p.y else y > height
    ensures y < height <==> CHARACTER_HEIGHT * PosOf(text, CharPerLine(width), currentPos).y < height
  {
    var cpl := CharPerLine(width);
    x, y := 0, 0;
    var iter := 0;
    while iter < currentPos
      invariant 0 <= iter <= currentPos
      invariant y == CHARACTER_HEIGHT * PosOf(text, cpl, iter).y && x == CHARACTER_WIDTH * PosOf(text, cpl, iter).x && x >= 0
    {
      if y > height {
        RowsGrow(text, cpl, iter, currentPos);
        return;
      }
      PixelsWrap(PosOf(text, cpl, iter).x, width);
      if text[iter] != '\n' {
        x := x + CHARACTER_WIDTH;
        if x > width {
          x := 0;
          y := y + CHARACTER_HEIGHT;
        }
      } else {
        x := 0;
        y := y + CHARACTER_HEIGHT;
      }
      iter := iter + 1;
    }
  }

  /** A line is full in pixels when it is full in characters. */
  lemma PixelsWrap(x: int, width: int)
    requires x >= 0
    ensures CHARACTER_WIDTH * x + CHARACTER_WIDTH > width <==> x + 1 > CharPerLine(width)
  {
  }

  // ---- offset to column and row and back

  lemma {:induction false} RowsGrow(str: string, cpl: int, i: nat, j: nat)
    requires i <= j <= |str|
    ensures PosOf(str, cpl, i).y <= PosOf(str, cpl, j).y
    ensures i < j ==> PosOf(str, cpl, i).y < PosOf(str, cpl, j).y || PosOf(str, cpl, i).x < PosOf(str, cpl, j).x
    ensures 0 <= PosOf(str, cpl, i).y && 0 <= PosOf(str, cpl, i).x
    decreases j, i
  {
    if i > 0 {
      RowsGrow(str, cpl, i - 1, i - 1);
    }
    if i < j {
      RowsGrow(str, cpl, i, j - 1);
    }
  }

  /** A click on where a character stands means that character. */
  lemma OffsetRoundTrip(str: string, cpl: int, offset: nat, r: nat)
    requires offset < |str| && IsOffset(str, cpl, PosOf(str, cpl, offset), r)
    ensures r == offset
  {
    RowsGrow(str, cpl, offset, offset);
    if r < |str| && PosOf(str, cpl, r) == PosOf(str, cpl, offset) {
      if r < offset {
        RowsGrow(str, cpl, r, offset);
      } else if offset < r {
        RowsGrow(str, cpl, offset, r);
      }
    }
  }

  /** A click on where the text ends means its end exactly when no character but perhaps the first stands in that
      row; otherwise it means the last character. */
  lemma EndRoundTrip(str: string, cpl: int, r: nat)
    requires IsOffset(str, cpl, PosOf(str, cpl, |str|), r)
    ensures var last := |str| - 1;
      var alone := |str| <= 1 || PosOf(str, cpl, last).y != PosOf(str, cpl, |str|).y;
      r == if alone then |str| else last
  {
    var m := PosOf(str, cpl, |str|);
    RowsGrow(str, cpl, |str|, |str|);
    forall k | 0 <= k < |str| ensures PosOf(str, cpl, k) != m && PosOf(str, cpl, k).y <= PosOf(str, cpl, |str| - 1).y <= m.y {
      RowsGrow(str, cpl, k, |str|);
      RowsGrow(str, cpl, k, |str| - 1);
      RowsGrow(str, cpl, |str| - 1, |str|);
    }
  }

  lemma LastIsUnique(str: string, cpl: int, y: int, n: nat, k: nat, l: nat)
    requires n <= |str| && LastInRow(str, cpl, y, n, k) && LastInRow(str, cpl, y, n, l)
    ensures k == l
  {
  }

  /** There is one answer to a click. */
  lemma OffsetIsUnique(str: string, cpl: int, m: Pos, r: nat, q: nat)
    requires IsOffset(str, cpl, m, r) && IsOffset(str, cpl, m, q)
    ensures r == q
  {
    if m.y >= 0 && !(r < |str| && PosOf(str, cpl, r) == m) && !(q < |str| && PosOf(str, cpl, q) == m) {
      var k: nat :| LastInRow(str, cpl, m.y, |str|, k) && r == if k > 0 then k else |str|;
      var l: nat :| LastInRow(str, cpl, m.y, |str|, l) && q == if l > 0 then l else |str|;
      LastIsUnique(str, cpl, m.y, |str|, k, l);
    }
  }

  // ---- keys

  predicate IsTyped(key: int) {
    (' ' as int <= key <= '~' as int) || key == '\n' as int
  }

  class InputField {
    var text: string
    var currentPos: nat

    constructor (t: string, pos: nat)
      ensures text == t && currentPos == pos
    {
      text, currentPos := t, pos;
    }

    predicate Valid()
      reads this
    {
      currentPos <= |text|
    }

    /** inputFieldKeyHandler on a key press. A key that is typed goes in at the cursor; backspace takes out what
        is before it; left and right move by one; up and down click on the same column of the next row. That a
        typed key leaves room for the NUL is the caller's to see to. */
    method KeyHandler(newChar: int, width: int)
      requires Valid() && (IsTyped(newChar) ==> |text| + 1 < MAX_LONG_STRLEN)
      modifies this
      ensures Valid()
      ensures IsTyped(newChar) ==>
        text == old(text[..currentPos]) + [newChar as char] + old(text[currentPos..]) && currentPos == old(currentPos) + 1
      ensures newChar == BACKSPACE && old(currentPos) > 0 ==>
        text == old(text[..currentPos - 1]) + old(text[currentPos..]) && currentPos == old(currentPos) - 1
      ensures !IsTyped(newChar) && (newChar != BACKSPACE || old(currentPos) == 0) ==> text == old(text)
      ensures newChar == KEY_LF ==> currentPos == if old(currentPos) > 0 then old(currentPos) - 1 else 0
      ensures newChar == KEY_RT ==> currentPos == if old(currentPos) < |text| then old(currentPos) + 1 else old(currentPos)
      ensures newChar == KEY_UP || newChar == KEY_DN ==>
        var cpl := CharPerLine(width);
        var p := PosOf(text, cpl, old(currentPos));
        IsOffset(text, cpl, Pos(p.x, if newChar == KEY_UP then p.y - 1 else p.y + 1), currentPos)
      ensures !IsTyped(newChar) && newChar !in {BACKSPACE, KEY_LF, KEY_RT, KEY_UP, KEY_DN} ==> currentPos == old(currentPos)
    {
      var charCount := |text|;
      if (newChar >= ' ' as int && newChar <= '~' as int) || newChar == '\n' as int {
        var temp := text[currentPos..];
        text := text[..currentPos] + [newChar as char] + temp;
        currentPos := currentPos + 1;
      }
      if newChar == KEY_LF && currentPos > 0 {
        currentPos := currentPos - 1;
      }
      if newChar == KEY_RT && currentPos < charCount {
        currentPos := currentPos + 1;
      }
      var x := GetMouseX(text, width, currentPos);
      var y := GetMouseY(text, width, currentPos);
      if newChar == KEY_UP {
        currentPos := GetInputOffset(text, width, x, y - 1);
      }
      if newChar == KEY_DN {
        currentPos := GetInputOffset(text, width, x, y + 1);
      }
      if newChar == BACKSPACE && currentPos > 0 {
        var temp := text[currentPos..];
        text := text[..currentPos - 1] + temp;
        currentPos := currentPos - 1;
      }
    }

    /** Typing and then backspace change nothing. */
    method TypeAndErase(newChar: int, width: int)
      requires Valid() && IsTyped(newChar) && |text| + 1 < MAX_LONG_STRLEN
      modifies this
      ensures Valid() && text == old(text) && currentPos == old(currentPos)
    {
      KeyHandler(newChar, width);
      KeyHandler(BACKSPACE, width);
    }
  }
}
