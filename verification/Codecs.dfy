/**
 The length-prefixed text formats: a log entry (include/raft/log_entry.h), the saved state
 (src/storage/persister.cpp) and an AppendEntries request (include/raft/rpc_messages.h).
 Each printer and parser is a method over a stream, proved to compute a function; the round
 trips are proved about the functions.
 */
module Codecs {
  import opened RaftLog
  import opened RaftSpec
  import opened Streams

  // --- One log entry: term|index|length|command ---

  function EncodeEntry(e: LogEntry): string {
    Print(e.term) + "|" + (Print(e.index) + "|" + (Print(|e.command|) + "|" + e.command))
  }

  /** What follows the command is ignored. */
  function DecodeEntry(s: string): Option<LogEntry> {
    match NextLine(s, '|')
    case NoLine => None
    case Line(term, s1) =>
      match NextLine(s1, '|')
      case NoLine => None
      case Line(index, s2) =>
        match NextLine(s2, '|')
        case NoLine => None
        case Line(length, s3) =>
          match (Stoi(term), Stoi(index), Stoull(length))
          case (Some(t), Some(i), Some(n)) => if n <= |s3| then Some(LogEntry(t, s3[..n], i)) else None
          case _ => None
  }

  lemma EntryRoundTrip(e: LogEntry, rest: string)
    ensures DecodeEntry(EncodeEntry(e) + rest) == Some(e)
  {
    var s3 := e.command + rest;
    var s2 := Print(|e.command|) + "|" + s3;
    var s1 := Print(e.index) + "|" + s2;
    assert EncodeEntry(e) + rest == Print(e.term) + "|" + s1;
    NumberThenRest(e.term, '|', s1);
    NumberThenRest(e.index, '|', s2);
    NumberThenRest(|e.command|, '|', s3);
    assert s3[..|e.command|] == e.command;
  }

  method DeserializeEntry(text: string) returns (result: Option<LogEntry>)
    ensures result == DecodeEntry(text)
  {
    var iss := new InputStream(text);
    var ok, term := iss.GetLine('|');
    if !ok { return None; }
    var index, length;
    ok, index := iss.GetLine('|');
    if !ok { return None; }
    ok, length := iss.GetLine('|');
    if !ok { return None; }
    match (Stoi(term), Stoi(index), Stoull(length)) {
      case (Some(t), Some(i), Some(n)) =>
        var command;
        ok, command := iss.Read(n);
        return if ok then Some(LogEntry(t, command, i)) else None;
      case _ => return None;
    }
  }

  // --- A list of entries, each behind its length ---

  /** Put the entries already parsed in front of what the rest of the text gives. */
  function Behind(done: seq<LogEntry>, more: Option<seq<LogEntry>>): Option<seq<LogEntry>> {
    match more
    case None => None
    case Some(entries) => Some(done + entries)
  }

  lemma BehindNone(more: Option<seq<LogEntry>>)
    ensures Behind([], more) == more
  {
    if more.Some? { assert [] + more.value == more.value; }
  }

  lemma NoneLeft(done: seq<LogEntry>)
    ensures Behind(done, Some([])) == Some(done)
  {
    assert done + [] == done;
  }

  lemma BehindOne(done: seq<LogEntry>, e: LogEntry, more: Option<seq<LogEntry>>)
    ensures Behind(done, Behind([e], more)) == Behind(done + [e], more)
  {
    if more.Some? { assert done + ([e] + more.value) == done + [e] + more.value; }
  }

  /** One entry behind its length, and the text after it. */
  datatype Item = NoItem | Item(entry: LogEntry, rest: string)

  function DecodeItem(s: string, delimiter: char): Item {
    match NextLine(s, delimiter)
    case NoLine => NoItem
    case Line(length, s1) =>
      match Stoull(length)
      case None => NoItem
      case Some(n) =>
        if n > |s1| then NoItem
        else
          match DecodeEntry(s1[..n])
          case None => NoItem
          case Some(e) => Item(e, s1[n..])
  }

  function EncodeItem(e: LogEntry, delimiter: char): string {
    Print(|EncodeEntry(e)|) + [delimiter] + EncodeEntry(e)
  }

  lemma ItemRoundTrip(e: LogEntry, delimiter: char, rest: string)
    requires delimiter == '|' || delimiter == '\n'
    ensures DecodeItem(EncodeItem(e, delimiter) + rest, delimiter) == Item(e, rest)
  {
    var body := EncodeEntry(e);
    var s1 := body + rest;
    assert EncodeItem(e, delimiter) + rest == Print(|body|) + [delimiter] + s1;
    NumberThenRest(|body|, delimiter, s1);
    assert s1[..|body|] == body && s1[|body|..] == rest;
    EntryRoundTrip(e, "");
    assert body + "" == body;
  }

  /** Both list parsers; on failure the text left over is unspecified. */
  method ReadItem(iss: InputStream, delimiter: char) returns (result: Option<LogEntry>)
    modifies iss
    ensures DecodeItem(old(iss.rest), delimiter) ==
            if result.Some? then Item(result.value, iss.rest) else NoItem
  {
    var ok, length := iss.GetLine(delimiter);
    if !ok { return None; }
    match Stoull(length) {
      case None => return None;
      case Some(n) =>
        var text;
        ok, text := iss.Read(n);
        if !ok { return None; }
        result := DeserializeEntry(text);
    }
  }

  // --- The saved state: three lines, then length, newline, entry for each entry ---

  function EncodeLog(log: seq<LogEntry>): string {
    if log == [] then "" else EncodeItem(log[0], '\n') + EncodeLog(log[1..])
  }

  function EncodeState(d: Disk): string {
    Print(d.term) + "\n" + (Print(d.vote) + "\n" + (Print(|d.log|) + "\n" + EncodeLog(d.log)))
  }

  function DecodeLog(s: string, count: nat): Option<seq<LogEntry>> {
    if count == 0 then Some([])
    else
      match DecodeItem(s, '\n')
      case NoItem => None
      case Item(e, rest) => Behind([e], DecodeLog(rest, count - 1))
  }

  function DecodeState(s: string): Option<Disk> {
    match NextField(s, '\n')
    case NoField => None
    case Field(term, s1) =>
      match NextField(s1, '\n')
      case NoField => None
      case Field(vote, s2) =>
        match DecodeCount(s2)
        case NoField => None
        case Field(count, s3) =>
          match DecodeLog(s3, count)
          case None => None
          case Some(log) => Some(Disk(term, vote, log))
  }

  function DecodeCount(s: string): (f: Field)
    ensures f.Field? ==> f.value >= 0
  {
    match NextLine(s, '\n')
    case NoLine => NoField
    case Line(text, rest) =>
      match Stoull(text)
      case None => NoField
      case Some(n) => Field(n, rest)
  }

  lemma DecodeLogStep(s: string, count: nat, e: LogEntry, rest: string)
    requires count > 0 && DecodeItem(s, '\n') == Item(e, rest)
    ensures DecodeLog(s, count) == Behind([e], DecodeLog(rest, count - 1))
  {
  }

  lemma LogLoopStep(
      total: Option<seq<LogEntry>>, done: seq<LogEntry>, s: string, count: nat, e: LogEntry, rest: string)
    requires count > 0 && DecodeItem(s, '\n') == Item(e, rest) && total == Behind(done, DecodeLog(s, count))
    ensures total == Behind(done + [e], DecodeLog(rest, count - 1))
  {
    DecodeLogStep(s, count, e, rest);
    BehindOne(done, e, DecodeLog(rest, count - 1));
  }

  lemma DecodeLogFails(s: string, count: nat)
    requires count > 0 && DecodeItem(s, '\n') == NoItem
    ensures DecodeLog(s, count) == None
  {
  }

  lemma {:induction false} LogRoundTrip(log: seq<LogEntry>, rest: string)
    ensures DecodeLog(EncodeLog(log) + rest, |log|) == Some(log)
  {
    hide EncodeItem, DecodeItem;
    if log != [] {
      var more := EncodeLog(log[1..]) + rest;
      ItemRoundTrip(log[0], '\n', more);
      assert EncodeLog(log) + rest == EncodeItem(log[0], '\n') + more;
      DecodeLogStep(EncodeLog(log) + rest, |log|, log[0], more);
      LogRoundTrip(log[1..], rest);
      assert log == [log[0]] + log[1..];
    }
  }

  /** Whatever was saved is what is restored: any term, any vote, any commands; and whatever
      text may follow. */
  lemma StateThenRest(d: Disk, rest: string)
    ensures DecodeState(EncodeState(d) + rest) == Some(d)
  {
    hide Print, EncodeLog, DecodeLog;
    var s3 := EncodeLog(d.log) + rest;
    var s2 := Print(|d.log|) + "\n" + s3;
    var s1 := Print(d.vote) + "\n" + s2;
    assert EncodeState(d) + rest == Print(d.term) + "\n" + s1;
    NumberThenRest(d.term, '\n', s1);
    NumberThenRest(d.vote, '\n', s2);
    NumberThenRest(|d.log|, '\n', s3);
    LogRoundTrip(d.log, rest);
  }

  lemma StateRoundTrip(d: Disk)
    ensures DecodeState(EncodeState(d)) == Some(d)
  {
    StateThenRest(d, "");
    assert EncodeState(d) + "" == EncodeState(d);
  }

  lemma ThreeLines(d: Disk)
    ensures Print(d.term) + "\n" + (Print(d.vote) + "\n" + (Print(|d.log|) + "\n")) + EncodeLog(d.log[0..])
            == EncodeState(d)
  {
    assert d.log[0..] == d.log;
  }

  method SerializeState(currentTerm: int, votedFor: int, log: seq<LogEntry>) returns (oss: string)
    ensures oss == EncodeState(Disk(currentTerm, votedFor, log))
  {
    oss := Print(currentTerm) + "\n" + (Print(votedFor) + "\n" + (Print(|log|) + "\n"));
    ThreeLines(Disk(currentTerm, votedFor, log));
    for i := 0 to |log|
      invariant oss + EncodeLog(log[i..]) == EncodeState(Disk(currentTerm, votedFor, log))
    {
      var serialized := EncodeEntry(log[i]);
      LogStep(oss, log, i);
      oss := oss + (Print(|serialized|) + "\n" + serialized);
    }
  }

  /** Moving the next entry from what is still to be printed to what is. */
  lemma LogStep(oss: string, log: seq<LogEntry>, i: nat)
    requires i < |log|
    ensures oss + EncodeLog(log[i..]) == oss + EncodeItem(log[i], '\n') + EncodeLog(log[i + 1..])
  {
    assert log[i..][1..] == log[i + 1..];
  }

  method ReadNumber(iss: InputStream, delimiter: char) returns (result: Option<int>)
    modifies iss
    ensures NextField(old(iss.rest), delimiter) ==
            if result.Some? then Field(result.value, iss.rest) else NoField
  {
    var ok, line := iss.GetLine(delimiter);
    if !ok { return None; }
    result := Stoi(line);
  }

  method ReadCount(iss: InputStream) returns (result: Option<nat>)
    modifies iss
    ensures DecodeCount(old(iss.rest)) == if result.Some? then Field(result.value, iss.rest) else NoField
  {
    var ok, line := iss.GetLine('\n');
    if !ok { return None; }
    result := Stoull(line);
  }

  method ReadLog(iss: InputStream, count: nat) returns (result: Option<seq<LogEntry>>)
    modifies iss
    ensures result == DecodeLog(old(iss.rest), count)
  {
    ghost var total := DecodeLog(iss.rest, count);
    var log := [];
    BehindNone(total);
    for i := 0 to count
      invariant total == Behind(log, DecodeLog(iss.rest, count - i))
    {
      ghost var before := iss.rest;
      var entry := ReadItem(iss, '\n');
      if entry.None? {
        DecodeLogFails(before, count - i);
        return None;
      }
      LogLoopStep(total, log, before, count - i, entry.value, iss.rest);
      log := log + [entry.value];
    }
    NoneLeft(log);
    return Some(log);
  }

  method DeserializeState(data: string) returns (result: Option<Disk>)
    ensures result == DecodeState(data)
  {
    var iss := new InputStream(data);
    var currentTerm := ReadNumber(iss, '\n');
    if currentTerm.None? { return None; }
    var votedFor := ReadNumber(iss, '\n');
    if votedFor.None? { return None; }
    var logCount := ReadCount(iss);
    if logCount.None? { return None; }
    var log := ReadLog(iss, logCount.value);
    if log.None? { return None; }
    return Some(Disk(currentTerm.value, votedFor.value, log.value));
  }

  // --- An AppendEntries request: six numbers, then |length|entry for each entry ---

  function EncodeEntries(entries: seq<LogEntry>): (s: string)
    ensures s == "" || s[0] == '|'
  {
    if entries == [] then "" else "|" + EncodeItem(entries[0], '|') + EncodeEntries(entries[1..])
  }

  function EncodeArgs(args: AppendEntriesArgs): string {
    Print(args.term) + "|" + (Print(args.leaderId) + "|" + (Print(args.prevLogIndex) + "|"
    + (Print(args.prevLogTerm) + "|"
    + (Print(args.leaderCommit) + "|" + (Print(|args.entries|) + EncodeEntries(args.entries))))))
  }

  /** The delimiter after an entry is skipped, whatever it is, unless the entry is the last. */
  function AfterItem(s: string, count: nat): string {
    if count > 1 then Skip(s) else s
  }

  function DecodeEntries(s: string, count: nat): Option<seq<LogEntry>> {
    if count == 0 then Some([])
    else
      match DecodeItem(s, '|')
      case NoItem => None
      case Item(e, rest) => Behind([e], DecodeEntries(AfterItem(rest, count), count - 1))
  }

  /** The six numbers and the text after them.  The program splits all six lines off before
      it converts any; a line that is missing and a line that is not a number are refused alike. */
  datatype Header =
    | NoHeader
    | Header(term: int, leaderId: int, prevLogIndex: int, prevLogTerm: int, leaderCommit: int, count: int, rest: string)

  function DecodeHeader(s: string): Header {
    match NextField(s, '|')
    case NoField => NoHeader
    case Field(term, s1) =>
      match NextField(s1, '|')
      case NoField => NoHeader
      case Field(leaderId, s2) =>
        match NextField(s2, '|')
        case NoField => NoHeader
        case Field(prevLogIndex, s3) =>
          match NextField(s3, '|')
          case NoField => NoHeader
          case Field(prevLogTerm, s4) =>
            match NextField(s4, '|')
            case NoField => NoHeader
            case Field(leaderCommit, s5) =>
              match NextField(s5, '|')
              case NoField => NoHeader
              case Field(count, rest) =>
                Header(term, leaderId, prevLogIndex, prevLogTerm, leaderCommit, count, rest)
  }

  /** A negative count is refused, by the reservation of space for the entries. */
  function DecodeArgs(s: string): Option<AppendEntriesArgs> {
    match DecodeHeader(s)
    case NoHeader => None
    case Header(term, leaderId, prevLogIndex, prevLogTerm, leaderCommit, count, rest) =>
      if count < 0 then None
      else
        match DecodeEntries(rest, count)
        case None => None
        case Some(entries) => Some(AppendEntriesArgs(term, leaderId, prevLogIndex, prevLogTerm, entries, leaderCommit))
  }

  lemma DecodeEntriesStep(s: string, count: nat, e: LogEntry, rest: string)
    requires count > 0 && DecodeItem(s, '|') == Item(e, rest)
    ensures DecodeEntries(s, count) == Behind([e], DecodeEntries(AfterItem(rest, count), count - 1))
  {
  }

  lemma DecodeEntriesFails(s: string, count: nat)
    requires count > 0 && DecodeItem(s, '|') == NoItem
    ensures DecodeEntries(s, count) == None
  {
  }

  lemma EntriesLoopStep(
      total: Option<seq<LogEntry>>, done: seq<LogEntry>, s: string, count: nat, e: LogEntry, rest: string)
    requires count > 0 && DecodeItem(s, '|') == Item(e, rest) && total == Behind(done, DecodeEntries(s, count))
    ensures total == Behind(done + [e], DecodeEntries(AfterItem(rest, count), count - 1))
  {
    DecodeEntriesStep(s, count, e, rest);
    BehindOne(done, e, DecodeEntries(AfterItem(rest, count), count - 1));
  }

  lemma FirstItem(entries: seq<LogEntry>)
    requires entries != []
    ensures Skip(EncodeEntries(entries)) == EncodeItem(entries[0], '|') + EncodeEntries(entries[1..])
  {
    var body := EncodeItem(entries[0], '|') + EncodeEntries(entries[1..]);
    assert EncodeEntries(entries) == "|" + body;
  }

  lemma {:induction false} EntriesRoundTrip(entries: seq<LogEntry>)
    ensures DecodeEntries(Skip(EncodeEntries(entries)), |entries|) == Some(entries)
  {
    if entries != [] {
      var more := EncodeEntries(entries[1..]);
      FirstItem(entries);
      ItemRoundTrip(entries[0], '|', more);
      DecodeEntriesStep(Skip(EncodeEntries(entries)), |entries|, entries[0], more);
      EntriesRoundTrip(entries[1..]);
      assert entries == [entries[0]] + entries[1..];
    }
  }

  /** The count is the one number that may end the text. */
  lemma CountField(n: nat, body: string)
    requires body == "" || body[0] == '|'
    ensures NextField(Print(n) + body, '|') == Field(n, Skip(body))
  {
    PrintThenParse(n);
    if body == "" {
      LastLine(Print(n), '|');
      assert Print(n) + body == Print(n);
    } else {
      LineThenRest(Print(n), '|', Skip(body));
      assert Print(n) + body == Print(n) + "|" + Skip(body);
    }
  }

  lemma HeaderRoundTrip(args: AppendEntriesArgs)
    ensures DecodeHeader(EncodeArgs(args)) ==
            Header(args.term, args.leaderId, args.prevLogIndex, args.prevLogTerm, args.leaderCommit, |args.entries|,
                   Skip(EncodeEntries(args.entries)))
  {
    hide NextField, NextLine, Print, Stoi, Stoull, EncodeEntries, Skip;
    var s5 := Print(|args.entries|) + EncodeEntries(args.entries);
    var s4 := Print(args.leaderCommit) + "|" + s5;
    var s3 := Print(args.prevLogTerm) + "|" + s4;
    var s2 := Print(args.prevLogIndex) + "|" + s3;
    var s1 := Print(args.leaderId) + "|" + s2;
    NumberThenRest(args.term, '|', s1);
    NumberThenRest(args.leaderId, '|', s2);
    NumberThenRest(args.prevLogIndex, '|', s3);
    NumberThenRest(args.prevLogTerm, '|', s4);
    NumberThenRest(args.leaderCommit, '|', s5);
    CountField(|args.entries|, EncodeEntries(args.entries));
  }

  /** Whatever is sent is what arrives: any number of entries, any bytes in their commands. */
  lemma ArgsRoundTrip(args: AppendEntriesArgs)
    ensures DecodeArgs(EncodeArgs(args)) == Some(args)
  {
    HeaderRoundTrip(args);
    EntriesRoundTrip(args.entries);
  }

  method SerializeArgs(args: AppendEntriesArgs) returns (oss: string)
    ensures oss == EncodeArgs(args)
  {
    oss := Print(args.term) + "|" + (Print(args.leaderId) + "|" + (Print(args.prevLogIndex) + "|"
    + (Print(args.prevLogTerm) + "|" + (Print(args.leaderCommit) + "|" + Print(|args.entries|)))));
    SixthNumber(args);
    for i := 0 to |args.entries|
      invariant oss + EncodeEntries(args.entries[i..]) == EncodeArgs(args)
    {
      var entryStr := EncodeEntry(args.entries[i]);
      EntriesStep(oss, args.entries, i);
      oss := oss + ("|" + (Print(|entryStr|) + "|" + entryStr));
    }
  }

  lemma EntriesStep(oss: string, entries: seq<LogEntry>, i: nat)
    requires i < |entries|
    ensures oss + EncodeEntries(entries[i..])
            == oss + ("|" + EncodeItem(entries[i], '|')) + EncodeEntries(entries[i + 1..])
  {
    assert entries[i..][1..] == entries[i + 1..];
  }

  lemma SixthNumber(args: AppendEntriesArgs)
    ensures Print(args.term) + "|" + (Print(args.leaderId) + "|" + (Print(args.prevLogIndex) + "|"
            + (Print(args.prevLogTerm) + "|" + (Print(args.leaderCommit) + "|" + Print(|args.entries|)))))
            + EncodeEntries(args.entries[0..]) == EncodeArgs(args)
  {
    assert args.entries[0..] == args.entries;
  }

  /** One turn of the loop: count entries are still to come behind those that are done. */
  method ReadEntry(iss: InputStream, count: nat, ghost total: Option<seq<LogEntry>>, ghost done: seq<LogEntry>)
    returns (entry: Option<LogEntry>)
    requires count > 0 && total == Behind(done, DecodeEntries(iss.rest, count))
    modifies iss
    ensures entry.None? ==> total.None?
    ensures entry.Some? ==> total == Behind(done + [entry.value], DecodeEntries(iss.rest, count - 1))
  {
    ghost var before := iss.rest;
    entry := ReadItem(iss, '|');
    if entry.None? {
      DecodeEntriesFails(before, count);
    } else {
      EntriesLoopStep(total, done, before, count, entry.value, iss.rest);
      if count > 1 { iss.Get(); }
    }
  }

  method ReadEntries(iss: InputStream, count: nat) returns (result: Option<seq<LogEntry>>)
    modifies iss
    ensures result == DecodeEntries(old(iss.rest), count)
  {
    ghost var total := DecodeEntries(iss.rest, count);
    var entries := [];
    BehindNone(total);
    for i := 0 to count
      invariant total == Behind(entries, DecodeEntries(iss.rest, count - i))
    {
      var entry := ReadEntry(iss, count - i, total, entries);
      if entry.None? { return None; }
      entries := entries + [entry.value];
    }
    NoneLeft(entries);
    return Some(entries);
  }

  method DeserializeArgs(text: string) returns (result: Option<AppendEntriesArgs>)
    ensures result == DecodeArgs(text)
  {
    var iss := new InputStream(text);
    var term := ReadNumber(iss, '|');
    if term.None? { return None; }
    var leaderId := ReadNumber(iss, '|');
    if leaderId.None? { return None; }
    var prevLogIndex := ReadNumber(iss, '|');
    if prevLogIndex.None? { return None; }
    var prevLogTerm := ReadNumber(iss, '|');
    if prevLogTerm.None? { return None; }
    var leaderCommit := ReadNumber(iss, '|');
    if leaderCommit.None? { return None; }
    var count := ReadNumber(iss, '|');
    if count.None? || count.value < 0 { return None; }
    var entries := ReadEntries(iss, count.value);
    if entries.None? { return None; }
    return Some(AppendEntriesArgs(term.value, leaderId.value, prevLogIndex.value, prevLogTerm.value,
                                  entries.value, leaderCommit.value));
  }
}
