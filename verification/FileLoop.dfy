/**
 The counting in the file loop of response_get when stat's size and the file disagree: sizes are 64-bit
 and wrap around, and the loop watches only the count.
 */
module FileLoop {
  import opened Common
  import opened Decimal
  import opened DynamicBuffer

  const WORD: nat := 0x1_0000_0000_0000_0000

  /** file_size, bytes held in the buffer, bytes left in the file. */
  datatype Loop = Loop(count: nat, held: nat, left: nat)

  predicate Ready(s: Loop, capacity: nat) {
    s.held <= capacity && s.count < WORD && s.left < WORD
  }

  /** One turn: fill the buffer from the file, subtract, send and clear if full. */
  function Turn(s: Loop, capacity: nat): (s': Loop)
    requires Ready(s, capacity)
    ensures Ready(s', capacity)
  {
    var n := Min(capacity - s.held, s.left);
    Loop((s.count - n) % WORD, if s.held + n == capacity then 0 else s.held + n, s.left - n)
  }

  /** The loop after at most k turns. */
  function After(s: Loop, capacity: nat, k: nat): (s': Loop)
    requires Ready(s, capacity)
    ensures Ready(s', capacity)
  {
    if k == 0 || After(s, capacity, k - 1).count == 0 then (if k == 0 then s else After(s, capacity, k - 1))
    else Turn(After(s, capacity, k - 1), capacity)
  }

  ghost predicate Ends(s: Loop, capacity: nat)
    requires Ready(s, capacity)
  {
    exists k: nat :: After(s, capacity, k).count == 0
  }

  /**
   After k turns the count is what stat said less the bytes read, up to w wrap-arounds; and unless nothing has
   happened yet, the file is used up or the q-th buffer has just been sent.
   */
  lemma {:induction false} TurnsAlign(s: Loop, capacity: nat, k: nat) returns (w: int, q: nat)
    requires Ready(s, capacity) && capacity > 0
    ensures var t := After(s, capacity, k);
      && t.left <= s.left && t.count == s.count - (s.left - t.left) + WORD * w
      && (t == s || t.left == 0 || (t.held == 0 && s.held + (s.left - t.left) == capacity * q))
  {
    w, q := 0, 0;
    if k == 0 {
    } else {
      w, q := TurnsAlign(s, capacity, k - 1);
      var t := After(s, capacity, k - 1);
      if t.count != 0 {
        var n := Min(capacity - t.held, t.left);
        TurnWraps(t, capacity);
        assert WORD * (w + 1) == WORD * w + WORD && capacity * (q + 1) == capacity * q + capacity
          && capacity * 1 == capacity;
        w := if n <= t.count then w else w + 1;
        q := if t == s then 1 else q + 1;
      }
    }
  }

  lemma TurnWraps(t: Loop, capacity: nat)
    requires Ready(t, capacity)
    ensures var n := Min(capacity - t.held, t.left);
      Turn(t, capacity).count == if n <= t.count then t.count - n else t.count - n + WORD
  {
  }

  lemma MulBounds(m: int, d: int)
    requires m > 0
    ensures d >= 1 ==> m * d >= m
    ensures d <= -1 ==> m * d <= -m
  {
    if d >= 1 {
      assert m * (d - 1) >= 0;
    } else if d <= -1 {
      assert m * (-d - 1) >= 0;
    }
  }

  lemma MultipleMod(q: int, m: int)
    requires m > 0
    ensures (m * q) % m == 0
  {
    var d := q - (m * q) / m;
    assert (m * q) % m == m * q - m * ((m * q) / m) == m * d;
    MulBounds(m, d);
  }

  /** The count will be reached exactly at the end of the file, or at a full buffer. */
  predicate OnCourse(t: Loop, capacity: nat)
    requires capacity > 0
  {
    t.count == t.left || (t.count <= t.left && (t.count + t.held) % capacity == 0)
  }

  lemma TurnStaysOnCourse(t: Loop, capacity: nat)
    requires Ready(t, capacity) && capacity > 0 && OnCourse(t, capacity) && t.count > 0
    ensures var t' := Turn(t, capacity);
      OnCourse(t', capacity) && (t'.count < t.count || (t'.count == t.count && t'.held < t.held))
  {
    var n := Min(capacity - t.held, t.left);
    if t.count != t.left {
      BigEnough(t.count, t.held, capacity);
    }
    assert n <= t.count && (t.count - n) % WORD == t.count - n;
  }

  /** While the count is reached exactly at the end of the file or at a full buffer, it goes down to 0. */
  lemma {:induction false} ReachesZero(s: Loop, capacity: nat, k: nat) returns (j: nat)
    requires Ready(s, capacity) && capacity > 0
    requires OnCourse(After(s, capacity, k), capacity)
    ensures After(s, capacity, j).count == 0
    decreases After(s, capacity, k).count, After(s, capacity, k).held
  {
    var t := After(s, capacity, k);
    if t.count == 0 {
      return k;
    }
    TurnStaysOnCourse(t, capacity);
    j := ReachesZero(s, capacity, k + 1);
  }

  lemma BigEnough(count: nat, held: nat, capacity: nat)
    requires 0 < count && held <= capacity && 0 < capacity && (count + held) % capacity == 0
    ensures capacity - held <= count && (count - (capacity - held)) % capacity == 0
  {
    var q := (count + held) / capacity;
    assert count + held == capacity * q;
    MulBounds(capacity, q);
    assert count + held - capacity == capacity * (q - 1);
    MultipleMod(q - 1, capacity);
  }

  /**
   stat's size is the size of the file, is 0, or falls short of it by just so much that it runs out at a full buffer.
   */
  predicate WillEnd(stat: nat, header: nat, file: nat, capacity: nat)
    requires capacity > 0
  {
    stat == file || stat == 0 || (stat < file && (stat + header) % capacity == 0)
  }

  /** That is exactly when the loop ends; otherwise it spins for ever. */
  lemma LoopEndsIff(stat: nat, header: nat, file: nat, capacity: nat)
    requires stat < WORD && file < WORD && header <= capacity && capacity > 0
    ensures Ends(Loop(stat, header, file), capacity) <==> WillEnd(stat, header, file, capacity)
  {
    var s := Loop(stat, header, file);
    if Ends(s, capacity) {
      var k: nat :| After(s, capacity, k).count == 0;
      var w, q := TurnsAlign(s, capacity, k);
      MulBounds(WORD, w);
      MultipleMod(q, capacity);
    }
    if WillEnd(stat, header, file, capacity) {
      assert After(s, capacity, 0) == s;
      if stat == 0 {
        assert After(s, capacity, 0).count == 0;
      } else {
        var j := ReachesZero(s, capacity, 0);
      }
    }
  }

  /**
   stat failing after fopen makes the size 2^64 - 1: the loop spins for every file there can be, and the length
   announced is one of those that lose their last digit.
   */
  lemma FailedStatSpins(header: nat, file: nat, capacity: nat)
    requires file < WORD - 1 && header <= capacity && capacity > 0
    ensures !Ends(Loop(WORD - 1, header, file), capacity)
    ensures |Digits(WORD - 1)| == 20
  {
    LoopEndsIff(WORD - 1, header, file, capacity);
    NumeralLength(WORD - 1);
    PowersOfTen();
  }

  /** A file cut short, or grown, between stat and the loop: 100 bytes left of 5000, or 300 there instead of 100. */
  lemma ChangedFileSpins()
    ensures !Ends(Loop(5000, 200, 100), 4096)
    ensures !Ends(Loop(100, 200, 300), 4096)
  {
    LoopEndsIff(5000, 200, 100, 4096);
    LoopEndsIff(100, 200, 300, 4096);
  }
}
