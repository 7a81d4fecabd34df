/** The serial line writer used to upload configuration files: a command
    line is sent followed by a carriage return, and the controller echoes the
    line, a carriage return and `+` (accepted) or `-` (rejected). Strings are
    sequences of characters, one per byte; the serial port is left out, the
    controller's reply becomes a parameter. */
module SerialCommands {
  import opened Results

  /** The acknowledgement byte that ends a reply. */
  predicate IsAck(c: char) {
    c == '+' || c == '-'
  }

  /** `p` is the complete reply to `cmd`: the echoed command, a carriage
      return and an acknowledgement. */
  predicate IsReply(cmd: string, p: string) {
    |p| == |cmd| + 2 && p[..|cmd|] == cmd && p[|cmd|] == '\r' && IsAck(p[|cmd| + 1])
  }

  /** The buffered bytes agree with the command on every position both have. */
  predicate EchoSoFar(cmd: string, buf: string) {
    forall i :: 0 <= i < |cmd| && i < |buf| ==> cmd[i] == buf[i]
  }

  /** `extractPacket`: the framing of the controller's replies. A positive
      result is the length of a complete reply at the head of the buffer,
      zero asks for more bytes, and a negative one is the number of bytes to
      drop: all of them when no command is pending, one when the head of the
      buffer is not the echo of the pending command. */
  method ExtractPacket(cmd: string, buf: string) returns (r: int)
    ensures cmd == [] ==> r == -|buf|
    ensures cmd != [] && !EchoSoFar(cmd, buf) ==> r == -1
    ensures cmd != [] && EchoSoFar(cmd, buf) && |buf| < |cmd| + 2 ==> r == 0
    ensures cmd != [] && |cmd| + 2 <= |buf| ==>
              (r > 0 <==> IsReply(cmd, buf[..|cmd| + 2]))
    ensures cmd != [] && |cmd| + 2 <= |buf| && !IsReply(cmd, buf[..|cmd| + 2]) ==> r == -1
    ensures r > 0 ==> r == |cmd| + 2 <= |buf| && IsReply(cmd, buf[..r])
    ensures r < 0 ==> r == -1 || (cmd == [] && r == -|buf|)
  {
    if cmd == [] {
      return -|buf|;
    }
    var expected := |cmd| + 2;
    var prefix := if |buf| < |cmd| then |buf| else |cmd|;
    var i := 0;
    while i < prefix
      invariant 0 <= i <= prefix
      invariant forall j :: 0 <= j < i ==> cmd[j] == buf[j]
    {
      if cmd[i] != buf[i] {
        return -1;
      }
      i := i + 1;
    }
    if |buf| < expected {
      return 0;
    }
    var lf := buf[expected - 2];
    var ack := buf[expected - 1];
    if lf != '\r' || (ack != '+' && ack != '-') {
      assert !IsReply(cmd, buf[..expected]);
      return -1;
    }
    assert buf[..expected][..|cmd|] == cmd;
    return expected;
  }

  /** `executeCommand` once the reply packet has been read: the command is
      accepted exactly when the reply ends with `+`. */
  function ExecuteCommand(line: string, reply: string): (r: Result<()>)
    requires |reply| > 0
    ensures r.Ok? <==> reply[|reply| - 1] == '+'
    ensures r.Err? ==> r.error == CommandFailed(line)
  {
    if reply[|reply| - 1] != '+' then Err(CommandFailed(line)) else Ok(())
  }

  /** A well-framed reply is accepted when the controller acknowledged with
      `+` and reported as a failure of that command when it answered `-`. */
  lemma FramedReplyVerdict(cmd: string, p: string)
    requires IsReply(cmd, p)
    ensures ExecuteCommand(cmd, p) == (if p[|cmd| + 1] == '+' then Ok(()) else Err(CommandFailed(cmd)))
    ensures p[|cmd| + 1] == '-' ==> ExecuteCommand(cmd, p) == Err(CommandFailed(cmd))
  {
  }

  /** The index of the first `#` of the line, its length when there is none
      (`find_first_of("#")`, with `npos` cutting nothing). */
  function CommentStart(line: string): (r: nat)
    ensures r <= |line|
    ensures forall j :: 0 <= j < r ==> line[j] != '#'
    ensures r < |line| ==> line[r] == '#'
    decreases |line|
  {
    if |line| == 0 || line[0] == '#' then 0 else 1 + CommentStart(line[1..])
  }

  /** The length of `s` without its trailing spaces: one past the last
      character that is not a space, zero when there is none
      (`find_last_not_of(" ")` plus one, with `npos` as zero). */
  function TrimmedLength(s: string): (r: nat)
    ensures r <= |s|
    ensures forall j :: r <= j < |s| ==> s[j] == ' '
    ensures r > 0 ==> s[r - 1] != ' '
    decreases |s|
  {
    if |s| == 0 then 0
    else if s[|s| - 1] != ' ' then |s|
    else TrimmedLength(s[..|s| - 1])
  }

  /** The command sent for a configuration line: the line cut at its first
      `#`, without trailing spaces; a line with nothing but spaces before
      its comment is sent whole. */
  function Normalize(line: string): (r: string)
  {
    var withoutComment := line[..CommentStart(line)];
    var n := TrimmedLength(withoutComment);
    if n > 0 then withoutComment[..n] else line
  }

  /** A line `executeCommands` passes over: empty, or a comment line. */
  predicate Skipped(line: string) {
    |line| == 0 || line[0] == '#'
  }

  /** A line `executeCommands` accepts as a command: it starts with `!`, `^`
      or `%`. */
  predicate IsCommandLine(line: string) {
    |line| > 0 && (line[0] == '!' || line[0] == '^' || line[0] == '%')
  }

  /** The command sent for a command line is a non-empty prefix of it that
      keeps its first character, holds no `#` and ends with no space, and
      what the line has beyond it up to the comment is spaces only. */
  lemma NormalizeCommand(line: string)
    requires IsCommandLine(line)
    ensures 0 < |Normalize(line)| <= CommentStart(line)
    ensures Normalize(line) == line[..|Normalize(line)|]
    ensures Normalize(line)[0] == line[0]
    ensures forall j :: 0 <= j < |Normalize(line)| ==> Normalize(line)[j] != '#'
    ensures Normalize(line)[|Normalize(line)| - 1] != ' '
    ensures forall j :: |Normalize(line)| <= j < CommentStart(line) ==> line[j] == ' '
  {
    var withoutComment := line[..CommentStart(line)];
    assert withoutComment[0] == line[0] != ' ';
    assert TrimmedLength(withoutComment) > 0;
  }

  /** Normalizing is idempotent on command lines: a sent command, read back
      as a line, is sent unchanged. */
  lemma NormalizeIdempotent(line: string)
    requires IsCommandLine(line)
    ensures IsCommandLine(Normalize(line))
    ensures Normalize(Normalize(line)) == Normalize(line)
  {
    NormalizeCommand(line);
    var c := Normalize(line);
    NoCommentStart(c);
    assert c[..CommentStart(c)] == c;
    NoTrailingSpace(c);
  }

  lemma NoCommentStart(s: string)
    requires forall j :: 0 <= j < |s| ==> s[j] != '#'
    ensures CommentStart(s) == |s|
  {
  }

  lemma NoTrailingSpace(s: string)
    requires |s| > 0 && s[|s| - 1] != ' '
    ensures TrimmedLength(s) == |s|
  {
  }

  /** What `executeCommands` did: the command lines it sent, in order, and
      how it ended. */
  datatype Session = Session(sent: seq<string>, status: Result<()>)

  /** The message of the exception raised for a line that is not a command. */
  function UnexpectedLine(line: string): string {
    "unexpected command line '" + line + "', expected a line starting with '^' or '!'"
  }

  /** `executeCommands` over the lines of a file; `device` is the reply
      packet the controller gives to a command line. Empty and comment lines
      are passed over; the first line that is not a command stops the upload
      with an invalid-argument error, the commands before it having been
      sent; a rejected command stops it with that command's failure. */
  function ExecuteCommands(lines: seq<string>, device: string -> string): (r: Session)
    requires forall l :: |device(l)| > 0
    decreases |lines|
  {
    if |lines| == 0 then Session([], Ok(()))
    else if Skipped(lines[0]) then ExecuteCommands(lines[1..], device)
    else if !IsCommandLine(lines[0]) then Session([], Err(InvalidArgument(UnexpectedLine(lines[0]))))
    else
      var cmd := Normalize(lines[0]);
      match ExecuteCommand(cmd, device(cmd))
      case Err(e) => Session([cmd], Err(e))
      case Ok(_) =>
        var rest := ExecuteCommands(lines[1..], device);
        Session([cmd] + rest.sent, rest.status)
  }

  /** The lines of a file that are not passed over, in order. */
  function Kept(lines: seq<string>): (r: seq<string>)
    ensures |r| <= |lines|
    ensures forall k :: 0 <= k < |r| ==> !Skipped(r[k]) && r[k] in lines
    ensures forall k :: 0 <= k < |lines| && !Skipped(lines[k]) ==> lines[k] in r
    decreases |lines|
  {
    if |lines| == 0 then []
    else if Skipped(lines[0]) then Kept(lines[1..])
    else [lines[0]] + Kept(lines[1..])
  }

  /** The commands sent for a sequence of command lines. */
  function NormalizeAll(lines: seq<string>): (r: seq<string>)
    ensures |r| == |lines|
    ensures forall k :: 0 <= k < |lines| ==> r[k] == Normalize(lines[k])
    decreases |lines|
  {
    if |lines| == 0 then [] else [Normalize(lines[0])] + NormalizeAll(lines[1..])
  }

  /** A kept line the upload gets past: a command line whose command the
      device acknowledges with `+`. */
  predicate GoesThrough(line: string, device: string -> string) {
    var reply := device(Normalize(line));
    IsCommandLine(line) && |reply| > 0 && reply[|reply| - 1] == '+'
  }

  /** The position of the first kept line the upload does not get past, or
      the number of kept lines when it gets past all of them. */
  function StopAt(kept: seq<string>, device: string -> string): (r: nat)
    ensures r <= |kept|
    ensures forall j :: 0 <= j < r ==> GoesThrough(kept[j], device)
    ensures r < |kept| ==> !GoesThrough(kept[r], device)
    decreases |kept|
  {
    if |kept| == 0 || !GoesThrough(kept[0], device) then 0
    else 1 + StopAt(kept[1..], device)
  }

  /** The outcome of an upload described at once from its kept lines: the
      commands of the lines it gets past are sent; a line that is not a
      command stops it with an invalid-argument error before anything is
      sent for it; a rejected command is sent and stops it with its
      failure. */
  function Outcome(kept: seq<string>, device: string -> string): (r: Session)
  {
    var p := StopAt(kept, device);
    if p == |kept| then Session(NormalizeAll(kept), Ok(()))
    else if !IsCommandLine(kept[p]) then
      Session(NormalizeAll(kept[..p]), Err(InvalidArgument(UnexpectedLine(kept[p]))))
    else Session(NormalizeAll(kept[..p + 1]), Err(CommandFailed(Normalize(kept[p]))))
  }

  /** Getting past the first kept line puts its command in front of the
      outcome of the others. */
  lemma OutcomeCons(line: string, rest: seq<string>, device: string -> string)
    requires GoesThrough(line, device)
    ensures Outcome([line] + rest, device)
         == Session([Normalize(line)] + Outcome(rest, device).sent, Outcome(rest, device).status)
  {
    var kept := [line] + rest;
    assert kept[1..] == rest;
    var p := StopAt(rest, device);
    assert StopAt(kept, device) == p + 1;
    if p == |rest| {
      assert kept == [line] + rest;
    } else {
      assert kept[..p + 1] == [line] + rest[..p];
      assert kept[..p + 2] == [line] + rest[..p + 1];
    }
  }

  /** `executeCommands` has the outcome described at once from the kept
      lines of the file. */
  lemma {:induction false} ExecuteCommandsOutcome(lines: seq<string>, device: string -> string)
    requires forall l :: |device(l)| > 0
    ensures ExecuteCommands(lines, device) == Outcome(Kept(lines), device)
    decreases |lines|
  {
    if |lines| > 0 {
      ExecuteCommandsOutcome(lines[1..], device);
      if !Skipped(lines[0]) {
        var kept := Kept(lines);
        assert kept == [lines[0]] + Kept(lines[1..]);
        if GoesThrough(lines[0], device) {
          OutcomeCons(lines[0], Kept(lines[1..]), device);
        } else {
          assert StopAt(kept, device) == 0;
          assert kept[..1] == [lines[0]];
        }
      }
    }
  }

  /** An upload of command lines all acknowledged sends every one of them,
      normalized, in file order, and succeeds; a success means just that. */
  lemma UploadSucceeds(lines: seq<string>, device: string -> string)
    requires forall l :: |device(l)| > 0
    ensures ExecuteCommands(lines, device).status.Ok? <==>
              forall k :: 0 <= k < |Kept(lines)| ==> GoesThrough(Kept(lines)[k], device)
    ensures ExecuteCommands(lines, device).status.Ok? ==>
              ExecuteCommands(lines, device).sent == NormalizeAll(Kept(lines))
  {
    ExecuteCommandsOutcome(lines, device);
  }

  /** At the first kept line that is not a command the upload fails with an
      invalid-argument error naming it, after sending the commands of the
      lines before it. */
  lemma UploadRejectsNonCommand(lines: seq<string>, device: string -> string, p: nat)
    requires forall l :: |device(l)| > 0
    requires p < |Kept(lines)| && !IsCommandLine(Kept(lines)[p])
    requires forall j :: 0 <= j < p ==> GoesThrough(Kept(lines)[j], device)
    ensures ExecuteCommands(lines, device)
         == Session(NormalizeAll(Kept(lines)[..p]), Err(InvalidArgument(UnexpectedLine(Kept(lines)[p]))))
  {
    ExecuteCommandsOutcome(lines, device);
    StopAtFirst(Kept(lines), device, p);
  }

  /** The stop position is the first line the upload does not get past. */
  lemma StopAtFirst(kept: seq<string>, device: string -> string, p: nat)
    requires p < |kept| && !GoesThrough(kept[p], device)
    requires forall j :: 0 <= j < p ==> GoesThrough(kept[j], device)
    ensures StopAt(kept, device) == p
  {
  }
}
