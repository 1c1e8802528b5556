// The fixed-column messages of the FIFO writer and reader (lab5/zad2). The
// writer formats "%6d - %s - %s"; the reader cuts the fields out by column.
module FifoFrame {
  import opened Text

  // ------------------------------------------------------------ the formatter

  function Digit(d: nat): char
    requires d < 10
  {
    "0123456789"[d]
  }

  function Decimal(n: nat): (s: string)
    ensures |s| > 0 && NUL !in s
  {
    if n < 10 then [Digit(n)] else Decimal(n / 10) + [Digit(n % 10)]
  }

  function Spaces(n: nat): (s: string)
    ensures |s| == n && NUL !in s
  {
    if n == 0 then "" else Spaces(n - 1) + " "
  }

  // %6d
  function Padded(pid: nat): (s: string)
    ensures NUL !in s && |s| >= 6 && (|Decimal(pid)| <= 6 ==> |s| == 6)
  {
    var digits := Decimal(pid);
    if |digits| < 6 then Spaces(6 - |digits|) + digits else digits
  }

  function Frame(pid: nat, hour: string, line: string): string {
    Padded(pid) + " - " + hour + " - " + line
  }

  // What strtol makes of the columns: leading spaces do not count.
  function Parsed(s: string): int {
    if s == [] then 0
    else
      var last := s[|s| - 1];
      10 * Parsed(s[..|s| - 1]) + if '0' <= last <= '9' then last as int - '0' as int else 0
  }

  lemma {:induction false} DecimalParses(n: nat)
    ensures Parsed(Decimal(n)) == n
  {
    if n >= 10 {
      DecimalParses(n / 10);
      assert Decimal(n)[..|Decimal(n)| - 1] == Decimal(n / 10);
    } else {
      assert Parsed([Digit(n)][..0]) == 0;
    }
  }

  lemma {:induction false} SpacesParse(k: nat, s: string)
    ensures Parsed(Spaces(k) + s) == Parsed(s)
  {
    if s != [] {
      SpacesParse(k, s[..|s| - 1]);
      assert (Spaces(k) + s)[..k + |s| - 1] == Spaces(k) + s[..|s| - 1];
    } else if k > 0 {
      SpacesParse(k - 1, []);
      assert Spaces(k) + s == Spaces(k) && Spaces(k)[..k - 1] == Spaces(k - 1) == Spaces(k - 1) + [];
    }
  }

  // The padded columns still read as the process id.
  lemma PaddedParses(pid: nat)
    ensures Parsed(Padded(pid)) == pid
  {
    DecimalParses(pid);
    if |Decimal(pid)| < 6 {
      SpacesParse(6 - |Decimal(pid)|, Decimal(pid));
    }
  }

  // Spaces, then decimal digits of which the first is no zero unless it is the only
  // one, and six columns at least.
  ghost predicate RightAligned(columns: string, k: nat) {
    && k < |columns| && |columns| >= 6 && (k > 0 ==> |columns| == 6)
    && (forall i :: 0 <= i < k ==> columns[i] == ' ')
    && (forall i :: k <= i < |columns| ==> '0' <= columns[i] <= '9')
    && (k + 1 < |columns| ==> columns[k] != '0')
  }

  lemma {:induction false} DecimalDigits(n: nat)
    ensures forall i :: 0 <= i < |Decimal(n)| ==> '0' <= Decimal(n)[i] <= '9'
    ensures n > 0 ==> Decimal(n)[0] != '0'
  {
    if n >= 10 {
      DecimalDigits(n / 10);
    }
  }

  lemma {:induction false} SpacesAre(n: nat)
    ensures forall i :: 0 <= i < n ==> Spaces(n)[i] == ' '
  {
    if n > 0 {
      SpacesAre(n - 1);
    }
  }

  // The columns are the decimal representation of the process id, right-aligned.
  lemma PaddedIsRightAligned(pid: nat) returns (k: nat)
    ensures RightAligned(Padded(pid), k) && Parsed(Padded(pid)[k..]) == pid
  {
    var digits := Decimal(pid);
    DecimalDigits(pid);
    DecimalParses(pid);
    if |digits| < 6 {
      k := 6 - |digits|;
      SpacesAre(k);
      assert Padded(pid)[k..] == digits;
    } else {
      k := 0;
      assert Padded(pid)[0..] == digits;
    }
    if pid == 0 {
      assert Decimal(0) == ['0'];
    }
  }

  function Pow10(k: nat): nat {
    if k == 0 then 1 else 10 * Pow10(k - 1)
  }

  lemma {:induction false} DecimalLength(n: nat, k: nat)
    requires k >= 1
    ensures |Decimal(n)| <= k <==> n < Pow10(k)
  {
    if n < 10 {
      PowersGrow(k);
    } else if k == 1 {
      assert Pow10(1) == 10 * Pow10(0) == 10;
      assert |Decimal(n / 10)| >= 1;
    } else {
      DecimalLength(n / 10, k - 1);
    }
  }

  lemma {:induction false} PowersGrow(k: nat)
    requires k >= 1
    ensures Pow10(k) >= 10
  {
    if k > 1 {
      PowersGrow(k - 1);
    }
  }

  lemma SixColumns(pid: nat)
    ensures |Padded(pid)| == 6 <==> pid <= 999999
  {
    DecimalLength(pid, 6);
    assert Pow10(6) == 1000000 by {
      assert Pow10(1) == 10 && Pow10(2) == 100 && Pow10(3) == 1000 && Pow10(4) == 10000 && Pow10(5) == 100000;
    }
  }

  // ------------------------------------------------- what the columns contain

  // The fields as the extractors see them in a buffer that holds a message
  // followed by at least one NUL.
  function PidColumns(message: string): string
    requires |message| >= 20
  {
    message[..6]
  }

  function HourColumns(message: string): string
    requires |message| >= 20
  {
    message[9..17]
  }

  function LineColumns(message: string): string
    requires |message| >= 20
  {
    message[20..]
  }

  // The columns give back what was formatted exactly for six-digit process ids:
  // one digit more shifts the hour and the line.
  lemma ColumnsRoundTripIff(pid: nat, hour: string, line: string)
    requires |hour| == 8
    ensures |Frame(pid, hour, line)| >= 20
    ensures pid <= 999999 ==>
      && PidColumns(Frame(pid, hour, line)) == Padded(pid)
      && HourColumns(Frame(pid, hour, line)) == hour
      && |Frame(pid, hour, line)| == 20 + |line|
    ensures LineColumns(Frame(pid, hour, line)) == line <==> pid <= 999999
    ensures pid <= 999999 ==> Frame(pid, hour, line)[6..9] == " - " == Frame(pid, hour, line)[17..20]
  {
    SixColumns(pid);
    var frame := Frame(pid, hour, line);
    assert |frame| == |Padded(pid)| + 14 + |line|;
    if pid <= 999999 {
      assert frame[..6] == Padded(pid);
      assert frame[9..17] == hour;
      assert frame[20..] == line;
      assert frame[6..9] == " - " && frame[17..20] == " - ";
    } else {
      assert |frame[20..]| == |Padded(pid)| - 6 + |line|;
    }
  }

  // ---------------------------------------------------------- buffers and loops

  datatype Sent = Sent(pid: nat, hour: string, line: string)
  datatype Shown = Shown(pid: string, hour: string, line: string)

  // Lines come from fgets with room for PIPE_BUF - 21 bytes.
  ghost predicate Sendable(m: Sent, pipeBuf: nat) {
    m.pid <= 999999 && |m.hour| == 8 && NUL !in m.line && |m.line| + 22 <= pipeBuf
  }

  function FrameOf(m: Sent): string {
    Frame(m.pid, m.hour, m.line)
  }

  // The formatted message and its terminator fit the writer's buffer, with a byte
  // to spare exactly for the lines that fgets gives.
  lemma FrameFits(m: Sent, pipeBuf: nat)
    requires m.pid <= 999999 && |m.hour| == 8
    ensures |FrameOf(m)| == 20 + |m.line|
    ensures |FrameOf(m)| + 1 < pipeBuf <==> |m.line| + 22 <= pipeBuf
  {
    ColumnsRoundTripIff(m.pid, m.hour, m.line);
  }

  // What is read as the line, from a buffer with any contents.
  function LineRead(buffer: seq<char>, m: Sent): string
    requires |FrameOf(m)| <= |buffer| && |FrameOf(m)| >= 20
  {
    UpToNul(Overlay(buffer, FrameOf(m))[20..])
  }

  // There is a NUL where the message ends.
  predicate ClearBehind(buffer: seq<char>, m: Sent) {
    20 + |m.line| < |buffer| && buffer[20 + |m.line|] == NUL
  }

  lemma ClearEverywhere(buffer: seq<char>, m: Sent, pipeBuf: nat)
    requires |buffer| == pipeBuf && Sendable(m, pipeBuf) && forall k :: 0 <= k < |buffer| ==> buffer[k] == NUL
    ensures ClearBehind(buffer, m)
  {
  }

  // The line is read exactly as it was sent if and only if the buffer happens to
  // have a NUL right behind the message; clearing the buffer sees to that.
  lemma LineExactIffTerminated(buffer: seq<char>, m: Sent, pipeBuf: nat)
    requires |buffer| == pipeBuf && Sendable(m, pipeBuf)
    ensures |FrameOf(m)| == 20 + |m.line| < |buffer|
    ensures LineRead(buffer, m) == m.line <==> ClearBehind(buffer, m)
  {
    FrameFits(m, pipeBuf);
    ColumnsRoundTripIff(m.pid, m.hour, m.line);
    var memory := Overlay(buffer, FrameOf(m))[20..];
    assert memory[..|m.line|] == FrameOf(m)[20..] == m.line;
    assert memory[|m.line|] == buffer[20 + |m.line|];
    if buffer[20 + |m.line|] == NUL {
      UpToNulIs(memory, m.line);
    } else {
      UpToNulEnds(memory);
    }
  }

  method Zero(str: array<char>)
    modifies str
    ensures forall k :: 0 <= k < str.Length ==> str[k] == NUL
  {
    var i := 0;
    while i < str.Length
      invariant 0 <= i <= str.Length
      invariant forall k :: 0 <= k < i ==> str[k] == NUL
    {
      str[i] := NUL;
      i := i + 1;
    }
  }

  // read(2) of one message.
  method Receive(buffer: array<char>, message: string)
    requires |message| <= buffer.Length
    modifies buffer
    ensures buffer[..] == Overlay(old(buffer[..]), message)
  {
    ghost var before := buffer[..];
    var i := 0;
    while i < |message|
      invariant 0 <= i <= |message|
      invariant forall k :: 0 <= k < i ==> buffer[k] == message[k]
      invariant forall k :: i <= k < buffer.Length ==> buffer[k] == before[k]
    {
      buffer[i] := message[i];
      i := i + 1;
    }
  }

  method ExtractPid(msg: array<char>, output: array<char>)
    requires msg != output && msg.Length >= 6 && output.Length == 7
    modifies output
    ensures output[..] == msg[..6] + [NUL]
  {
    output[6] := NUL;
    var i := 0;
    while i < 6
      invariant 0 <= i <= 6 && output[6] == NUL
      invariant output[..i] == msg[..i]
    {
      output[i] := msg[i];
      i := i + 1;
    }
  }

  method ExtractWriteDate(msg: array<char>, output: array<char>)
    requires msg != output && msg.Length >= 17 && output.Length == 9
    modifies output
    ensures output[..] == msg[9..17] + [NUL]
  {
    output[8] := NUL;
    var i := 0;
    while i < 8
      invariant 0 <= i <= 8 && output[8] == NUL
      invariant output[..i] == msg[9..9 + i]
    {
      output[i] := msg[i + 9];
      i := i + 1;
    }
  }

  // Copies up to and including the first NUL from column 20 on: there must be
  // one, and the output must have room for it.
  method ExtractMsg(msg: array<char>, output: array<char>)
    requires msg != output && msg.Length >= 20 && NUL in msg[20..]
    requires |UpToNul(msg[20..])| < output.Length
    modifies output
    ensures UpToNul(msg[20..]) + [NUL] <= output[..]
  {
    ghost var line := UpToNul(msg[20..]);
    UpToNulEnds(msg[20..]);
    var i := 0;
    output[i] := msg[i + 20];
    while output[i] != NUL
      invariant 0 <= i <= |line| && output[i] == msg[20..][i]
      invariant output[..i] == line[..i]
      decreases |line| - i
    {
      i := i + 1;
      output[i] := msg[i + 20];
    }
  }

  // What printf sees: the characters before the first NUL.
  method ReadString(chars: array<char>) returns (text: string)
    requires NUL in chars[..]
    ensures text == UpToNul(chars[..])
  {
    UpToNulEnds(chars[..]);
    var length := 0;
    while chars[length] != NUL
      invariant 0 <= length <= |UpToNul(chars[..])|
      decreases |UpToNul(chars[..])| - length
    {
      length := length + 1;
    }
    text := chars[..length];
  }

  // The reader's loop over any sequence of messages, one per read. Each is shown
  // as it was sent: the buffer is cleared between reads, so nothing of a longer
  // message is left behind a shorter one. The first buffer comes from malloc and
  // has to be clear where the first message ends.
  method ReadLoop(readBuf: array<char>, sent: seq<Sent>, pipeBuf: nat) returns (shown: seq<Shown>)
    requires readBuf.Length == pipeBuf >= 22
    requires forall k :: 0 <= k < |sent| ==> Sendable(sent[k], pipeBuf)
    requires sent != [] ==> ClearBehind(readBuf[..], sent[0])
    modifies readBuf
    ensures |shown| == |sent|
    ensures forall k :: 0 <= k < |sent| ==>
      shown[k] == Shown(Padded(sent[k].pid), sent[k].hour, sent[k].line)
  {
    hide UpToNul, Padded, ClearBehind;
    var pid := new char[7];
    var writeDate := new char[9];
    var msg := new char[pipeBuf - 21];
    shown := [];
    var i := 0;
    while i < |sent|
      invariant 0 <= i <= |sent| && |shown| == i
      invariant i < |sent| ==> ClearBehind(readBuf[..], sent[i])
      invariant forall k :: 0 <= k < i ==> shown[k] == Shown(Padded(sent[k].pid), sent[k].hour, sent[k].line)
    {
      var one := ShowOne(readBuf, pid, writeDate, msg, sent[i]);
      shown := shown + [one];
      Zero(readBuf);
      i := i + 1;
      if i < |sent| {
        ClearEverywhere(readBuf[..], sent[i], pipeBuf);
      }
    }
  }

  // One round: read, cut out the three fields, print. The field buffers keep
  // whatever earlier rounds left in them.
  method ShowOne(readBuf: array<char>, pid: array<char>, writeDate: array<char>, msg: array<char>, m: Sent)
    returns (shown: Shown)
    requires pid.Length == 7 && writeDate.Length == 9 && msg.Length + 21 == readBuf.Length
    requires readBuf != pid && readBuf != writeDate && readBuf != msg
    requires pid != writeDate && pid != msg && writeDate != msg
    requires Sendable(m, readBuf.Length) && ClearBehind(readBuf[..], m)
    modifies readBuf, pid, writeDate, msg
    ensures shown == Shown(Padded(m.pid), m.hour, m.line)
  {
    ghost var before := readBuf[..];
    LineExactIffTerminated(before, m, readBuf.Length);
    ColumnsRoundTripIff(m.pid, m.hour, m.line);
    Receive(readBuf, FrameOf(m));
    assert readBuf[..6] == FrameOf(m)[..6] && readBuf[9..17] == FrameOf(m)[9..17];
    assert readBuf[20..][|m.line|] == NUL && UpToNul(readBuf[20..]) == m.line;
    ExtractPid(readBuf, pid);
    ExtractWriteDate(readBuf, writeDate);
    ExtractMsg(readBuf, msg);
    UpToNulIs(msg[..], m.line);
    var line := ReadString(msg);
    shown := Shown(pid[..6], writeDate[..8], line);
  }
}
