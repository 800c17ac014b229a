/** The loop of IOBuf::Append(data, size), turn by turn: what it appends, and for which data that is
    the data. It never moves on in the data, and each turn takes as much as there is room for. */
module IoAppend {
  import opened IoBlocks

  // size_t wraps
  const SIZE_T: nat := 0x1_0000_0000_0000_0000

  /** Between two turns: the room behind the last byte (in a new block if the rear one is full), what the
      loop believes is left, and what has been appended. */
  datatype Loop = Loop(space: nat, remain: nat, out: string)

  function Portion(space: nat, data: string): nat { if space < |data| then space else |data| }

  function Turn(s: Loop, data: string): Loop {
    var n := Portion(s.space, data);
    Loop(if n < s.space then s.space - n else CAPACITY, (s.remain - n) % SIZE_T, s.out + data[..n])
  }

  /** After n turns, or as many as there are. */
  function Turns(room: nat, data: string, n: nat): Loop {
    if n == 0 then Loop(room, |data|, "") else
    var s := Turns(room, data, n - 1);
    if s.remain == 0 then s else Turn(s, data)
  }

  lemma NoTurns(room: nat, data: string)
    ensures Turns(room, data, 0) == Loop(room, |data|, "")
  {
  }

  lemma NextTurn(room: nat, data: string, n: nat, copySize: nat)
    requires var s := Turns(room, data, n); s.remain != 0 && copySize == Portion(s.space, data)
    ensures copySize <= |data|
    ensures var s := Turns(room, data, n); var space := if copySize < s.space then s.space - copySize else CAPACITY;
      Turns(room, data, n + 1) == Loop(space, (s.remain - copySize) % SIZE_T, s.out + data[..copySize])
  {
  }

  lemma PortionIs(space: nat, data: string)
    ensures Portion(space, data) == if space < |data| then space else |data|
  {
  }

  /** Data that fits is appended in one turn. */
  lemma OneTurn(room: nat, data: string, n: nat)
    requires 0 < |data| <= room && n > 0
    ensures Turns(room, data, n).remain == 0 && Turns(room, data, n).out == data
  {
    if n == 1 {
      assert Turns(room, data, 0) == Loop(room, |data|, "");
      assert "" + data[..|data|] == data;
    } else {
      OneTurn(room, data, n - 1);
    }
  }

  /** Otherwise the second turn takes the first bytes again, and takes too many if they fit one block: what
      is left wraps around. */
  lemma SecondTurn(room: nat, data: string)
    requires 0 < room < |data| < SIZE_T && room <= CAPACITY
    ensures var n := Portion(CAPACITY, data); var s := Turns(room, data, 2);
      && s.out == data[..room] + data[..n]
      && s.remain == if n == |data| then SIZE_T - room else (|data| - room - n) % SIZE_T
  {
    FirstTurn(room, data);
    assert Turns(room, data, 2) == Turn(Turns(room, data, 1), data);
  }

  lemma FirstTurn(room: nat, data: string)
    requires 0 < room < |data| < SIZE_T && room <= CAPACITY
    ensures Turns(room, data, 1) == Loop(CAPACITY, |data| - room, data[..room])
  {
    assert Turns(room, data, 0) == Loop(room, |data|, "");
    assert "" + data[..room] == data[..room];
  }

  /** The first block of the data, i times. */
  function Copies(data: string, i: nat): string
    requires CAPACITY <= |data|
  {
    if i == 0 then "" else Copies(data, i - 1) + data[..CAPACITY]
  }

  lemma {:induction false} CopiesAt(data: string, i: nat, j: nat)
    requires CAPACITY <= |data| && j < i * CAPACITY
    ensures |Copies(data, i)| == i * CAPACITY && Copies(data, i)[j] == data[j % CAPACITY]
  {
    CopiesLength(data, i);
    CopiesLength(data, i - 1);
    if j < (i - 1) * CAPACITY {
      CopiesAt(data, i - 1, j);
    } else {
      Within(i - 1, j);
    }
  }

  lemma {:induction false} CopiesLength(data: string, i: nat)
    requires CAPACITY <= |data|
    ensures |Copies(data, i)| == i * CAPACITY
  {
    if i > 0 { CopiesLength(data, i - 1); }
  }

  lemma Within(i: nat, j: nat)
    requires i * CAPACITY <= j < i * CAPACITY + CAPACITY
    ensures j % CAPACITY == j - i * CAPACITY
  {
  }

  /** As long as it does not take too many, every turn but the first takes the first block of the data. */
  lemma {:induction false} Steady(room: nat, data: string, i: nat)
    requires 0 < room <= CAPACITY < |data| < SIZE_T && room + i * CAPACITY <= |data|
    ensures Turns(room, data, 1 + i) == Loop(CAPACITY, |data| - room - i * CAPACITY, data[..room] + Copies(data, i))
  {
    if i == 0 {
      FirstTurn(room, data);
      assert data[..room] + "" == data[..room];
    } else {
      Steady(room, data, i - 1);
      var s := Turns(room, data, i);
      assert s.out + data[..CAPACITY] == data[..room] + Copies(data, i);
      assert (s.remain - CAPACITY) % SIZE_T == s.remain - CAPACITY;
    }
  }

  lemma {:induction false} OnlyLonger(room: nat, data: string, n: nat, m: nat)
    requires n <= m
    ensures |Turns(room, data, n).out| <= |Turns(room, data, m).out|
  {
    if n < m { OnlyLonger(room, data, n, m - 1); }
  }

  lemma {:induction false} Over(room: nat, data: string, n: nat, m: nat)
    requires n <= m && Turns(room, data, n).remain == 0
    ensures Turns(room, data, m) == Turns(room, data, n)
  {
    if n < m { Over(room, data, n, m - 1); }
  }

  /** Behind the bytes that fit, the data repeats its first block, a whole number of times. */
  predicate Repeats(room: nat, data: string) {
    room <= |data| && (|data| - room) % CAPACITY == 0 && forall j :: room <= j < |data| ==> RepeatsAt(room, data, j)
  }

  predicate RepeatsAt(room: nat, data: string, j: int)
    requires room <= j < |data|
  {
    data[j] == data[(j - room) % CAPACITY]
  }

  /** The loop ends with the data appended. */
  ghost predicate Appends(room: nat, data: string) {
    exists n: nat :: Turns(room, data, n).remain == 0 && Turns(room, data, n).out == data
  }

  /** It does so exactly for data that there is room for, and for data that repeats. */
  lemma AppendsExactly(room: nat, data: string)
    requires 0 < room <= CAPACITY && |data| < SIZE_T
    ensures Appends(room, data) <==> |data| <= room || Repeats(room, data)
  {
    if data == "" {
      assert Turns(room, data, 0).remain == 0 && Turns(room, data, 0).out == data;
    } else if |data| <= room {
      OneTurn(room, data, 1);
    } else if |data| <= CAPACITY {
      NotWithinOne(room, data);
    } else if (|data| - room) % CAPACITY != 0 {
      NotAWhole(room, data);
    } else {
      Whole(room, data);
    }
  }

  lemma NotWithinOne(room: nat, data: string)
    requires 0 < room < |data| <= CAPACITY
    ensures !Appends(room, data) && !Repeats(room, data)
  {
    FirstTurn(room, data);
    SecondTurn(room, data);
    forall n: nat | Turns(room, data, n).remain == 0 ensures Turns(room, data, n).out != data {
      if n >= 2 { OnlyLonger(room, data, 2, n); }
    }
  }

  lemma NotAWhole(room: nat, data: string)
    requires 0 < room <= CAPACITY < |data| < SIZE_T && (|data| - room) % CAPACITY != 0
    ensures !Appends(room, data)
  {
    hide Turns, Copies;
    var i := (|data| - room) / CAPACITY;
    Steady(room, data, i);
    CopiesLength(data, i);
    TooLong(room, data, i);
    forall n: nat | Turns(room, data, n).remain == 0 ensures Turns(room, data, n).out != data {
      if n <= 1 + i { Over(room, data, n, 1 + i); } else { OnlyLonger(room, data, 2 + i, n); }
    }
  }

  lemma TooLong(room: nat, data: string, i: nat)
    requires room <= CAPACITY < |data| && Turns(room, data, 1 + i).space == CAPACITY && Turns(room, data, 1 + i).remain != 0
    ensures |Turns(room, data, 2 + i).out| == |Turns(room, data, 1 + i).out| + CAPACITY
  {
    assert Turns(room, data, 2 + i) == Turn(Turns(room, data, 1 + i), data);
  }

  lemma Whole(room: nat, data: string)
    requires 0 < room <= CAPACITY < |data| < SIZE_T && (|data| - room) % CAPACITY == 0
    ensures Appends(room, data) <==> Repeats(room, data)
  {
    hide Turns, Copies;
    var i := (|data| - room) / CAPACITY;
    Steady(room, data, i);
    var out := Turns(room, data, 1 + i).out;
    SameIfRepeats(room, data, i, out);
    if Appends(room, data) {
      var n: nat :| Turns(room, data, n).remain == 0 && Turns(room, data, n).out == data;
      if n <= 1 + i { Over(room, data, n, 1 + i); } else { Over(room, data, 1 + i, n); }
    }
  }

  lemma SameIfRepeats(room: nat, data: string, i: nat, out: string)
    requires room <= CAPACITY < |data| == room + i * CAPACITY && out == data[..room] + Copies(data, i)
    requires (|data| - room) % CAPACITY == 0
    ensures out == data <==> Repeats(room, data)
  {
    hide Copies;
    CopiesLength(data, i);
    forall j | room <= j < |data| ensures out[j] == data[(j - room) % CAPACITY] { CopiesAt(data, i, j - room); }
    if out == data {
      forall j | room <= j < |data| ensures RepeatsAt(room, data, j) {}
    }
    if Repeats(room, data) { RepeatsIsSame(room, data, out); }
  }

  lemma RepeatsIsSame(room: nat, data: string, out: string)
    requires room <= |out| == |data| && out[..room] == data[..room] && Repeats(room, data)
    requires forall j :: room <= j < |data| ==> out[j] == data[(j - room) % CAPACITY]
    ensures out == data
  {
    forall j | 0 <= j < |data| ensures out[j] == data[j] {
      if j >= room { assert RepeatsAt(room, data, j); } else { assert out[..room][j] == data[..room][j]; }
    }
  }
}
