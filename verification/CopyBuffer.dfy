/** Distance records on their way into the database: the copy buffer with its text lines, and
    the queue between transactions. */
module CopyBuffer {
  import opened Wrappers
  import opened Strings
  import opened Text
  import opened Distances
  import S = Store

  // -------------------------------------------------------- the lines of a copy

  function PrintInt(n: int): string {
    if n < 0 then "-" + PrintNat(-n) else PrintNat(n)
  }

  /** The last w decimal digits of n. */
  function Digits(n: nat, w: nat): string {
    if w == 0 then "" else Digits(n / 10, w - 1) + [Digit(n % 10)]
  }

  /** A value printed with "%f". */
  function PrintFixed(x: real): string {
    var m := RoundHalfEven((if x < 0.0 then -x else x) * 1000000.0);
    (if x < 0.0 then "-" else "") + PrintNat(m / 1000000) + "." + Digits(m % 1000000, 6)
  }

  function CopyLine(r: Row): string {
    PrintInt(r.a) + "\t" + PrintInt(r.b) + "\t" + PrintInt(r.kind.fvt) + "\t" + PrintInt(r.kind.dist)
    + "\t" + PrintFixed(r.value) + "\n"
  }

  function CopyText(rows: seq<Row>): string {
    if rows == [] then "" else CopyText(rows[..|rows| - 1]) + CopyLine(rows[|rows| - 1])
  }

  // ------------------------------------------------ what the database reads from it

  function Pow10(w: nat): (p: nat)
    ensures p > 0
  {
    if w == 0 then 1 else 10 * Pow10(w - 1)
  }

  function ReadInt(s: string): Option<int> {
    if s != "" && s[0] == '-' then
      if IsNumber(s[1..]) then
        var n: int := NatValue(s[1..]);
        Some(-n)
      else None
    else if IsNumber(s) then Some(NatValue(s))
    else None
  }

  function ReadDecimal(s: string): Option<real> {
    var n := IndexOf(s, '.');
    if n == |s| || !IsNumber(s[..n]) || !IsNumber(s[n + 1..]) then None
    else Some(DecimalValue(s[..n], s[n + 1..]))
  }

  function DecimalValue(whole: string, part: string): real {
    NatValue(whole) as real + NatValue(part) as real / Pow10(|part|) as real
  }

  function ReadFixed(s: string): Option<real> {
    if s != "" && s[0] == '-' then
      match ReadDecimal(s[1..]) case Some(x) => Some(-x) case None => None
    else ReadDecimal(s)
  }

  function TabSeparated(s: string): seq<string>
    decreases |s|
  {
    var n := IndexOf(s, '\t');
    if n == |s| then [s] else [s[..n]] + TabSeparated(s[n + 1..])
  }

  function ReadRow(line: string): Option<Row> {
    var f := TabSeparated(line);
    if |f| != 5 then None
    else
      match (ReadInt(f[0]), ReadInt(f[1]), ReadInt(f[2]), ReadInt(f[3]), ReadFixed(f[4]))
      case (Some(a), Some(b), Some(fvt), Some(dist), Some(v)) => Some(Row(Kind(fvt, dist), a, b, v))
      case _ => None
  }

  /** The rows of a stream of lines; None stands for a copy that the database rejects. */
  function ReadCopy(s: string): Option<seq<Row>>
    decreases |s|
  {
    if s == "" then Some([])
    else
      var n := IndexOf(s, '\n');
      if n == |s| then None
      else
        match (ReadRow(s[..n]), ReadCopy(s[n + 1..]))
        case (Some(r), Some(rest)) => Some([r] + rest)
        case _ => None
  }

  // ------------------------------------------------------------- one line read back

  lemma IntRoundTrip(n: int)
    ensures ReadInt(PrintInt(n)) == Some(n) && IsWord(PrintInt(n)) && (n >= 0 ==> IsNumber(PrintInt(n)))
  {
    NatRoundTrip(if n < 0 then -n else n);
    if n < 0 {
      assert PrintInt(n)[1..] == PrintNat(-n);
    }
  }

  lemma {:induction false} DigitsRead(n: nat, w: nat)
    requires n < Pow10(w)
    ensures |Digits(n, w)| == w && NatValue(Digits(n, w)) == n
    ensures w > 0 ==> IsNumber(Digits(n, w)) && IsWord(Digits(n, w))
  {
    if w > 0 {
      DigitsRead(n / 10, w - 1);
      NatAppend(Digits(n / 10, w - 1), n % 10);
    }
  }

  /** Rounding to the nearest, ties to even, does not favour a sign. */
  lemma RoundIsOdd(x: real)
    ensures RoundHalfEven(-x) == -RoundHalfEven(x)
  {
    var n := x.Floor;
    if x == n as real {
      assert (-x).Floor == -n;
    } else {
      assert (-x).Floor == -n - 1;
    }
  }

  lemma PointedWord(whole: string, part: string)
    requires IsWord(whole) && IsWord(part)
    ensures IsWord(whole + "." + part) && (whole + "." + part)[0] == whole[0]
  {
    assert forall c :: c in whole + "." + part ==> c in whole || c == '.' || c in part;
  }

  lemma ReadPointed(whole: string, part: string)
    requires IsNumber(whole) && IsNumber(part)
    ensures ReadDecimal(whole + "." + part) == Some(DecimalValue(whole, part))
  {
    hide DecimalValue, IndexOf;
    var s := whole + "." + part;
    IndexOfAt(whole, '.', part);
    assert s[..|whole|] == whole && s[|whole| + 1..] == part;
  }

  lemma Millionths(m: nat)
    ensures (m / 1000000) as real + (m % 1000000) as real / 1000000.0 == m as real / 1000000.0
  {
    assert m == m / 1000000 * 1000000 + m % 1000000;
  }

  lemma DecimalRoundTrip(m: nat)
    ensures var s := PrintNat(m / 1000000) + "." + Digits(m % 1000000, 6);
      ReadDecimal(s) == Some(m as real / 1000000.0) && IsWord(s) && s[0] != '-'
  {
    assert Pow10(6) == 1000000;
    hide PrintNat, Digits, ReadDecimal, NatValue, Pow10, IsWord, IsNumber;
    var whole, part := PrintNat(m / 1000000), Digits(m % 1000000, 6);
    NatRoundTrip(m / 1000000);
    DigitsRead(m % 1000000, 6);
    PointedWord(whole, part);
    ReadPointed(whole, part);
    Millionths(m);
  }

  /** What is printed with "%f" reads back as the nearest multiple of a millionth. */
  lemma FixedRoundTrip(x: real)
    ensures ReadFixed(PrintFixed(x)) == Some(SixDecimals(x)) && IsWord(PrintFixed(x))
  {
    hide Digits, PrintNat, ReadDecimal;
    var y := (if x < 0.0 then -x else x) * 1000000.0;
    var m := RoundHalfEven(y);
    assert m >= 0;
    hide RoundHalfEven;
    DecimalRoundTrip(m);
    if x < 0.0 {
      RoundIsOdd(y);
      assert -y == x * 1000000.0;
      var s := PrintNat(m / 1000000) + "." + Digits(m % 1000000, 6);
      assert PrintFixed(x) == "-" + s && PrintFixed(x)[1..] == s;
    } else {
      assert PrintFixed(x) == PrintNat(m / 1000000) + "." + Digits(m % 1000000, 6);
    }
  }

  lemma TabStep(w: string, rest: string)
    requires IsWord(w)
    ensures TabSeparated(w + "\t" + rest) == [w] + TabSeparated(rest)
  {
    IndexOfAt(w, '\t', rest);
    var s := w + "\t" + rest;
    assert s[..|w|] == w && s[|w| + 1..] == rest;
  }

  lemma FiveTabSeparated(a: string, b: string, c: string, d: string, e: string)
    requires IsWord(a) && IsWord(b) && IsWord(c) && IsWord(d) && IsWord(e)
    ensures var l := a + "\t" + b + "\t" + c + "\t" + d + "\t" + e;
      TabSeparated(l) == [a, b, c, d, e] && '\n' !in l
  {
    hide TabSeparated, IndexOf;
    TabStep(a, b + "\t" + c + "\t" + d + "\t" + e);
    TabStep(b, c + "\t" + d + "\t" + e);
    TabStep(c, d + "\t" + e);
    TabStep(d, e);
    OneTabSeparated(e);
    assert a + "\t" + b + "\t" + c + "\t" + d + "\t" + e == a + "\t" + (b + "\t" + c + "\t" + d + "\t" + e);
    assert b + "\t" + c + "\t" + d + "\t" + e == b + "\t" + (c + "\t" + d + "\t" + e);
    assert c + "\t" + d + "\t" + e == c + "\t" + (d + "\t" + e);
  }

  lemma OneTabSeparated(e: string)
    requires IsWord(e)
    ensures TabSeparated(e) == [e]
  {
    IndexOfAbsent(e, '\t');
  }

  /** A line is read as its record, with six decimals of the distance. */
  lemma LineRoundTrip(r: Row)
    ensures var l := CopyLine(r)[..|CopyLine(r)| - 1];
      CopyLine(r) == l + "\n" && '\n' !in l && ReadRow(l) == Some(S.PrintRow(r))
  {
    hide PrintInt, PrintFixed, ReadInt, ReadFixed, TabSeparated, SixDecimals, IsWord;
    IntRoundTrip(r.a);
    IntRoundTrip(r.b);
    IntRoundTrip(r.kind.fvt);
    IntRoundTrip(r.kind.dist);
    FixedRoundTrip(r.value);
    var a, b, c, d, e := PrintInt(r.a), PrintInt(r.b), PrintInt(r.kind.fvt), PrintInt(r.kind.dist), PrintFixed(r.value);
    FiveTabSeparated(a, b, c, d, e);
    var l := a + "\t" + b + "\t" + c + "\t" + d + "\t" + e;
    assert CopyLine(r) == l + "\n";
    assert CopyLine(r)[..|l|] == l;
  }

  /** The columns of a line: both tracks, both types and the distance. */
  lemma LineColumns(r: Row)
    ensures var f := TabSeparated(CopyLine(r)[..|CopyLine(r)| - 1]);
      && |f| == 5
      && ReadInt(f[0]) == Some(r.a) && ReadInt(f[1]) == Some(r.b)
      && ReadInt(f[2]) == Some(r.kind.fvt) && ReadInt(f[3]) == Some(r.kind.dist)
      && ReadFixed(f[4]) == Some(SixDecimals(r.value))
  {
    hide PrintInt, PrintFixed, ReadInt, ReadFixed, TabSeparated, SixDecimals, IsWord;
    IntRoundTrip(r.a);
    IntRoundTrip(r.b);
    IntRoundTrip(r.kind.fvt);
    IntRoundTrip(r.kind.dist);
    FixedRoundTrip(r.value);
    var a, b, c, d, e := PrintInt(r.a), PrintInt(r.b), PrintInt(r.kind.fvt), PrintInt(r.kind.dist), PrintFixed(r.value);
    FiveTabSeparated(a, b, c, d, e);
    assert CopyLine(r)[..|CopyLine(r)| - 1] == a + "\t" + b + "\t" + c + "\t" + d + "\t" + e;
  }

  lemma {:induction false} CopyTextConcat(rows: seq<Row>, more: seq<Row>)
    ensures CopyText(rows + more) == CopyText(rows) + CopyText(more)
  {
    hide CopyLine;
    if more == [] {
      assert rows + more == rows;
    } else {
      var init := more[..|more| - 1];
      assert (rows + more)[..|rows + more| - 1] == rows + init;
      CopyTextConcat(rows, init);
    }
  }

  /** The database reads the queue back in order, with six decimals of each distance. */
  lemma {:induction false} CopyRoundTrip(rows: seq<Row>)
    ensures ReadCopy(CopyText(rows)) == Some(S.Printed(rows))
  {
    hide CopyLine, ReadRow;
    if rows != [] {
      var rest := rows[1..];
      CopyRoundTrip(rest);
      assert CopyText(rows) == CopyLine(rows[0]) + CopyText(rest) by {
        CopyTextConcat([rows[0]], rest);
        assert rows == [rows[0]] + rest;
        assert CopyText([rows[0]]) == CopyLine(rows[0]) by {
          assert [rows[0]][..0] == [];
        }
      }
      ReadFirst(rows[0], CopyText(rest), S.Printed(rest));
      assert S.Printed(rows) == [S.PrintRow(rows[0])] + S.Printed(rest);
    }
  }

  lemma ReadFirst(r: Row, rest: string, read: seq<Row>)
    requires ReadCopy(rest) == Some(read)
    ensures ReadCopy(CopyLine(r) + rest) == Some([S.PrintRow(r)] + read)
  {
    hide CopyLine, ReadRow;
    LineRoundTrip(r);
    var l := CopyLine(r)[..|CopyLine(r)| - 1];
    var s := CopyLine(r) + rest;
    assert s == l + "\n" + rest;
    IndexOfAt(l, '\n', rest);
    assert s[..|l|] == l && s[|l| + 1..] == rest;
  }

  // ----------------------------------------------------------------- the copy buffer

  function Concat(chunks: seq<string>): string {
    if chunks == [] then "" else Concat(chunks[..|chunks| - 1]) + chunks[|chunks| - 1]
  }

  /** Within the buffer size and made of whole lines. */
  predicate ChunkOk(chunk: string, capacity: nat) {
    0 < |chunk| <= capacity && chunk[|chunk| - 1] == '\n'
  }

  /** The receiving end of the connection: one element per piece of data passed on. */
  class Connection {
    var sent: seq<string>

    constructor ()
      ensures sent == []
    {
      sent := [];
    }

    method PutCopyData(buffer: array<char>, buflen: nat)
      requires buflen <= buffer.Length
      modifies this
      ensures sent == old(sent) + [buffer[..buflen]]
    {
      sent := sent + [buffer[..buflen]];
    }
  }

  /** The text in the buffer ends with a zero byte.  The buffer of the code has `capacity` bytes;
      the array has one more, which stands for the byte behind it. */
  ghost predicate BufferOk(buffer: array<char>, buflen: nat, capacity: nat)
    reads buffer
  {
    && buffer.Length == capacity + 1 && buflen <= capacity && buffer[buflen] == '\0'
    && (buflen > 0 ==> buffer[buflen - 1] == '\n')
  }

  /** Appends a line and a zero byte after the text in the buffer. */
  method AppendLine(buffer: array<char>, buflen: nat, line: string)
    requires buflen + |line| < buffer.Length
    modifies buffer
    ensures buffer[..buflen + |line|] == old(buffer[..buflen]) + line
    ensures buffer[buflen + |line|] == '\0'
  {
    var i := 0;
    while i < |line|
      invariant 0 <= i <= |line|
      invariant buffer[..buflen] == old(buffer[..buflen])
      invariant buffer[buflen..buflen + i] == line[..i]
    {
      buffer[buflen + i] := line[i];
      i := i + 1;
    }
    buffer[buflen + i] := '\0';
    assert line[..i] == line;
    assert buffer[..buflen + |line|] == buffer[..buflen] + buffer[buflen..buflen + |line|];
  }

  lemma CopyTextStep(queue: seq<Row>, i: nat)
    requires i < |queue|
    ensures CopyText(queue[..i + 1]) == CopyText(queue[..i]) + CopyLine(queue[i])
  {
    assert queue[..i + 1][..i] == queue[..i];
  }

  /** The length of the text in the buffer after the lines of the queue. */
  function Level(queue: seq<Row>, capacity: nat): nat {
    if queue == [] then 0
    else
      var before, n := Level(queue[..|queue| - 1], capacity), |CopyLine(queue[|queue| - 1])|;
      if before + n > capacity then n else before + n
  }

  lemma LevelStep(queue: seq<Row>, i: nat, capacity: nat)
    requires i < |queue|
    ensures var before, n := Level(queue[..i], capacity), |CopyLine(queue[i])|;
      Level(queue[..i + 1], capacity) == if before + n > capacity then n else before + n
  {
    assert queue[..i + 1][..i] == queue[..i];
  }

  /** Some lines that go into one chunk fill the buffer exactly. */
  ghost predicate FillsExactly(queue: seq<Row>, capacity: nat) {
    exists i :: 0 < i <= |queue| && Level(queue[..i], capacity) == capacity
  }

  /** Takes one more line in, after passing the buffer on if the line does not fit. */
  method PutLine(conn: Connection, copybuf: array<char>, buflen: nat, line: string, ghost capacity: nat)
    returns (buflen': nat)
    requires BufferOk(copybuf, buflen, capacity) && 0 < |line| <= capacity && line[|line| - 1] == '\n'
    requires forall c :: c in conn.sent ==> ChunkOk(c, capacity)
    modifies conn, copybuf
    ensures BufferOk(copybuf, buflen', capacity)
    ensures buflen' == if buflen + |line| > capacity then |line| else buflen + |line|
    ensures forall c :: c in conn.sent ==> ChunkOk(c, capacity)
    ensures Concat(conn.sent) + copybuf[..buflen'] == old(Concat(conn.sent) + copybuf[..buflen]) + line
  {
    hide Concat;
    ghost var before := Concat(conn.sent) + copybuf[..buflen];
    buflen' := buflen;
    if buflen + |line| > copybuf.Length - 1 {
      Flush(conn, copybuf, buflen, capacity);
      copybuf[0] := '\0';
      buflen' := 0;
    }
    ghost var sent := Concat(conn.sent);
    ghost var text := copybuf[..buflen'];
    assert sent + text == before;
    AppendLine(copybuf, buflen', line);
    buflen' := buflen' + |line|;
    assert sent + (text + line) == before + line;
    assert copybuf[..buflen'][buflen' - 1] == '\n';
  }

  /** The line of one record. */
  method PutRow(conn: Connection, copybuf: array<char>, buflen: nat, queue: seq<Row>, i: nat, ghost capacity: nat)
    returns (buflen': nat)
    requires i < |queue| && |CopyLine(queue[i])| <= capacity
    requires BufferOk(copybuf, buflen, capacity) && buflen == Level(queue[..i], capacity)
    requires forall c :: c in conn.sent ==> ChunkOk(c, capacity)
    requires Concat(conn.sent) + copybuf[..buflen] == CopyText(queue[..i])
    modifies conn, copybuf
    ensures BufferOk(copybuf, buflen', capacity) && buflen' == Level(queue[..i + 1], capacity)
    ensures forall c :: c in conn.sent ==> ChunkOk(c, capacity)
    ensures Concat(conn.sent) + copybuf[..buflen'] == CopyText(queue[..i + 1])
  {
    hide CopyLine, CopyText, Concat, ChunkOk, BufferOk, Level;
    LineRoundTrip(queue[i]);
    CopyTextStep(queue, i);
    LevelStep(queue, i, capacity);
    buflen' := PutLine(conn, copybuf, buflen, CopyLine(queue[i]), capacity);
  }

  /** `past` tells whether a zero byte was written behind the buffer. */
  method PutLines(conn: Connection, copybuf: array<char>, queue: seq<Row>, ghost capacity: nat)
    returns (buflen: nat, past: bool)
    requires forall r :: r in queue ==> |CopyLine(r)| <= capacity
    requires BufferOk(copybuf, 0, capacity) && capacity > 0 && conn.sent == []
    modifies conn, copybuf
    ensures BufferOk(copybuf, buflen, capacity)
    ensures past <==> FillsExactly(queue, capacity)
    ensures forall c :: c in conn.sent ==> ChunkOk(c, capacity)
    ensures Concat(conn.sent) + copybuf[..buflen] == CopyText(queue)
  {
    hide CopyLine, CopyText, Concat, ChunkOk, BufferOk, Level, FillsExactly;
    NothingPut(capacity);
    BufferLength(copybuf, 0, capacity);
    assert queue[..0] == [];
    buflen, past := 0, false;
    var i := 0;
    while i < |queue|
      invariant 0 <= i <= |queue| && BufferOk(copybuf, buflen, capacity) && buflen == Level(queue[..i], capacity)
      invariant buflen <= copybuf.Length
      invariant past <==> FillsExactly(queue[..i], capacity)
      invariant forall c :: c in conn.sent ==> ChunkOk(c, capacity)
      invariant Concat(conn.sent) + copybuf[..buflen] == CopyText(queue[..i])
    {
      buflen := PutRow(conn, copybuf, buflen, queue, i, capacity);
      BufferLength(copybuf, buflen, capacity);
      FillsStep(queue, i, capacity);
      past := past || buflen == copybuf.Length - 1;
      i := i + 1;
    }
    assert queue[..i] == queue;
  }

  lemma NothingPut(capacity: nat)
    ensures CopyText([]) == "" && Concat([]) == "" && Level([], capacity) == 0 && !FillsExactly([], capacity)
  {
  }

  lemma BufferLength(copybuf: array<char>, buflen: nat, capacity: nat)
    requires BufferOk(copybuf, buflen, capacity)
    ensures copybuf.Length == capacity + 1 && buflen <= capacity
  {
  }

  lemma FillsStep(queue: seq<Row>, i: nat, capacity: nat)
    requires i < |queue|
    ensures FillsExactly(queue[..i + 1], capacity)
       <==> FillsExactly(queue[..i], capacity) || Level(queue[..i + 1], capacity) == capacity
  {
    hide Level;
    var init, whole := queue[..i], queue[..i + 1];
    assert forall j :: 0 < j <= i ==> whole[..j] == init[..j];
    assert whole[..i + 1] == whole;
  }

  /** Sends the queue in pieces: no piece exceeds the buffer, no line is torn apart, and
      together they are all the lines in order, which the database reads as the queue.  The zero
      byte stays inside the buffer if and only if no lines of one chunk fill it exactly. */
  method CopyDists(queue: seq<Row>, capacity: nat, conn: Connection) returns (past: bool)
    requires forall r :: r in queue ==> |CopyLine(r)| <= capacity
    requires capacity > 0 && conn.sent == []
    modifies conn
    ensures past <==> FillsExactly(queue, capacity)
    ensures forall c :: c in conn.sent ==> ChunkOk(c, capacity)
    ensures Concat(conn.sent) == CopyText(queue)
    ensures ReadCopy(Concat(conn.sent)) == Some(S.Printed(queue))
  {
    hide CopyLine, ReadCopy, CopyText, Concat, ChunkOk, FillsExactly;
    var copybuf := new char[capacity + 1];
    copybuf[0] := '\0';
    var buflen;
    buflen, past := PutLines(conn, copybuf, queue, capacity);
    if buflen > 0 {
      Flush(conn, copybuf, buflen, capacity);
    } else {
      assert Concat(conn.sent) + [] == Concat(conn.sent);
    }
    CopyRoundTrip(queue);
  }

  method Flush(conn: Connection, copybuf: array<char>, buflen: nat, ghost capacity: nat)
    requires 0 < buflen <= capacity < copybuf.Length && copybuf[buflen - 1] == '\n'
    requires forall c :: c in conn.sent ==> ChunkOk(c, capacity)
    modifies conn
    ensures forall c :: c in conn.sent ==> ChunkOk(c, capacity)
    ensures Concat(conn.sent) == Concat(old(conn.sent)) + copybuf[..buflen]
  {
    conn.PutCopyData(copybuf, buflen);
    assert conn.sent[..|conn.sent| - 1] == old(conn.sent);
  }

  /** The size of the buffer in bytes. */
  const MAXCOPYBUFFER: nat := 5 * 1024 * 1024

  lemma {:induction false} LevelOfEqualLines(queue: seq<Row>, m: nat, capacity: nat)
    requires forall r :: r in queue ==> |CopyLine(r)| == m
    requires |queue| * m <= capacity
    ensures Level(queue, capacity) == |queue| * m
  {
    hide CopyLine;
    if queue != [] {
      var init, last := queue[..|queue| - 1], queue[|queue| - 1];
      assert |queue| * m == |init| * m + m;
      LevelOfEqualLines(init, m, capacity);
      assert last in queue;
    }
  }

  /** Equal lines that divide the buffer fill it. */
  lemma EqualLinesFill(queue: seq<Row>, m: nat, capacity: nat)
    requires queue != [] && forall r :: r in queue ==> |CopyLine(r)| == m
    requires |queue| * m == capacity
    ensures FillsExactly(queue, capacity)
  {
    LevelOfEqualLines(queue, m, capacity);
    assert queue[..|queue|] == queue;
  }

  lemma {:induction false} DigitCount(n: nat, w: nat)
    requires w > 0 && (w == 1 || Pow10(w - 1) <= n) && n < Pow10(w)
    ensures |PrintNat(n)| == w
  {
    if w > 1 {
      PowersOfTen(w - 2);
      DigitCount(n / 10, w - 1);
    }
  }

  lemma PowersOfTen(w: nat)
    ensures Pow10(w + 1) == 10 * Pow10(w) && Pow10(w) >= 1
    ensures Pow10(w + 2) == 10 * Pow10(w + 1)
  {
  }

  /** A reverse row at distance 1, from track 10000000 + i to track 100000000. */
  function FullBufferRow(i: nat): Row {
    Row(Kind(1, 1), 10000000 + i, 100000000, 1.0)
  }

  lemma FullBufferLine(i: nat)
    requires i < 163840
    ensures |CopyLine(FullBufferRow(i))| == 32
  {
    hide Digits;
    TenToTheNinth();
    DigitCount(10000000 + i, 8);
    DigitCount(100000000, 9);
    DigitCount(1, 1);
    RoundInteger(1000000);
    DigitsRead(0, 6);
    assert PrintFixed(1.0) == PrintNat(1) + "." + Digits(0, 6);
  }

  lemma TenToTheNinth()
    ensures Pow10(1) == 10 && Pow10(6) == 1000000 && Pow10(7) == 10000000 && Pow10(8) == 100000000
      && Pow10(9) == 1000000000
    ensures Pow10(0) == 1
  {
    assert Pow10(3) == 1000;
    assert Pow10(6) == 1000000;
  }

  /** A queue that the daemon can commit and that fills the buffer exactly: 163840 different rows of
      32 characters. */
  lemma FullBuffer()
    ensures var queue := seq(163840, i requires 0 <= i < 163840 => FullBufferRow(i));
      S.UniqueRows(queue) && FillsExactly(queue, MAXCOPYBUFFER)
  {
    hide CopyLine;
    var queue := seq(163840, i requires 0 <= i < 163840 => FullBufferRow(i));
    forall r | r in queue ensures |CopyLine(r)| == 32 {
      var i :| 0 <= i < |queue| && queue[i] == r;
      FullBufferLine(i);
    }
    EqualLinesFill(queue, 32, MAXCOPYBUFFER);
  }

  /** A queue that is shorter than the buffer never fills it. */
  lemma {:induction false} ShortQueueFits(queue: seq<Row>, capacity: nat)
    requires |CopyText(queue)| < capacity
    ensures Level(queue, capacity) == |CopyText(queue)| && !FillsExactly(queue, capacity)
  {
    hide CopyLine;
    if queue != [] {
      var init := queue[..|queue| - 1];
      ShortQueueFits(init, capacity);
      forall i | 0 < i <= |queue| ensures Level(queue[..i], capacity) != capacity {
        if i < |queue| {
          assert queue[..i] == init[..i];
        } else {
          assert queue[..i] == queue;
        }
      }
    }
  }

  /** Committing the queue of a store through the buffer: what the database reads from the chunks
      is what the store adds to its table. */
  method CommitThroughBuffer(store: S.Store, capacity: nat) returns (conn: Connection, past: bool)
    requires forall r :: r in store.queue ==> |CopyLine(r)| <= capacity
    requires capacity > 0
    modifies store`distance, store`queue
    ensures fresh(conn) && store.queue == []
    ensures ReadCopy(Concat(conn.sent)).Some?
    ensures store.distance == old(store.distance) + ReadCopy(Concat(conn.sent)).value
    ensures past <==> FillsExactly(old(store.queue), capacity)
  {
    hide CopyLine, ReadCopy, CopyText, Concat, ChunkOk, FillsExactly;
    conn := new Connection();
    past := CopyDists(store.queue, capacity, conn);
    store.FinishTransaction(true);
  }

  // ------------------------------------------------------- transactions and the queue

  datatype Step = Begin | Insert(row: Row) | Finish(commit: bool)

  /** How the next transaction to finish ends. */
  function NextFinish(steps: seq<Step>): Option<bool> {
    if steps == [] then None
    else if steps[0].Finish? then Some(steps[0].commit)
    else NextFinish(steps[1..])
  }

  /** The inserted rows whose next finish is a commit. */
  function Committed(steps: seq<Step>): seq<Row> {
    if steps == [] then []
    else
      (if steps[0].Insert? && NextFinish(steps[1..]) == Some(true) then [steps[0].row] else [])
      + Committed(steps[1..])
  }

  /** What becomes of rows that wait in the queue while the steps are run. */
  function Fate(queue: seq<Row>, steps: seq<Step>): seq<Row> {
    (if NextFinish(steps) == Some(true) then queue else []) + Committed(steps)
  }

  /** The rows that are still queued when the steps have been run. */
  function Waiting(queue: seq<Row>, steps: seq<Step>): seq<Row>
    decreases |steps|
  {
    if steps == [] then queue else Waiting(Next(queue, steps[0]), steps[1..])
  }

  function Next(queue: seq<Row>, step: Step): seq<Row> {
    match step
    case Begin => queue
    case Insert(row) => queue + [row]
    case Finish(_) => []
  }

  lemma FateSplit(queue: seq<Row>, steps: seq<Step>)
    requires steps != []
    ensures Fate(queue, steps)
         == (if steps[0] == Finish(true) then queue else []) + Fate(Next(queue, steps[0]), steps[1..])
  {
  }

  lemma PrintedConcat(rows: seq<Row>, more: seq<Row>)
    ensures S.Printed(rows + more) == S.Printed(rows) + S.Printed(more)
    ensures S.Printed([]) == []
  {
  }

  /** Running one step: what it copies, and what becomes of the queue it leaves. */
  lemma FateOfStep(queue: seq<Row>, steps: seq<Step>)
    requires steps != []
    ensures var copied := if steps[0] == Finish(true) then queue else [];
      S.Printed(Fate(queue, steps)) == S.Printed(copied) + S.Printed(Fate(Next(queue, steps[0]), steps[1..]))
  {
    hide Fate, Next, S.Printed;
    var copied := if steps[0] == Finish(true) then queue else [];
    FateSplit(queue, steps);
    PrintedConcat(copied, Fate(Next(queue, steps[0]), steps[1..]));
  }

  method RunStep(store: S.Store, step: Step)
    modifies store
    ensures store.distance == old(store.distance) + S.Printed(if step == Finish(true) then old(store.queue) else [])
    ensures store.queue == Next(old(store.queue), step)
  {
    match step
    case Begin => store.StartTransaction();
    case Insert(row) => store.InsertDistanceRecord(row);
    case Finish(commit) => store.FinishTransaction(commit);
  }

  /** Any run of begin, insert, commit and rollback: the table gains exactly the rows whose
      next finish is a commit, in the order of insertion. */
  method RunSteps(store: S.Store, steps: seq<Step>)
    modifies store
    ensures store.distance == old(store.distance) + S.Printed(Fate(old(store.queue), steps))
    ensures store.queue == Waiting(old(store.queue), steps)
  {
    hide Fate, Next, S.Printed;
    var i := 0;
    assert steps[0..] == steps;
    while i < |steps|
      invariant 0 <= i <= |steps|
      invariant store.distance + S.Printed(Fate(store.queue, steps[i..]))
             == old(store.distance) + S.Printed(Fate(old(store.queue), steps))
      invariant Waiting(store.queue, steps[i..]) == Waiting(old(store.queue), steps)
    {
      assert steps[i..][1..] == steps[i + 1..];
      FateOfStep(store.queue, steps[i..]);
      RunStep(store, steps[i]);
      i := i + 1;
    }
    assert steps[i..] == [];
    NothingLeft(store.queue);
    assert store.distance + [] == store.distance;
  }

  lemma NothingLeft(queue: seq<Row>)
    ensures S.Printed(Fate(queue, [])) == []
  {
  }
}
