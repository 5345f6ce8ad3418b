/**
 The text formats as another program would read them: what stands in which place.  Round trips
 alone would also hold of formats that swap two fields in both directions.
 */
module Layouts {
  import opened RaftLog
  import opened RaftSpec
  import opened Streams
  import opened Codecs

  const DIGITS := "0123456789"

  /** Numbers are decimal, most significant digit first, a minus sign in front of a negative one. */
  lemma Numerals(n: nat, d: nat)
    requires d < 10
    ensures Print(d) == [DIGITS[d]]
    ensures n > 0 ==> Print(10 * n + d) == Print(n) + [DIGITS[d]] && Print(0 - n) == "-" + Print(n)
  {
    assert (10 * n + d) / 10 == n && (10 * n + d) % 10 == d;
    assert Digit(d) == DIGITS[d];
  }

  /** The text split at every delimiter. */
  function Pieces(s: string, delimiter: char): (pieces: seq<string>)
    ensures |pieces| >= 1
  {
    var n := Find(s, 0, delimiter);
    if n == |s| then [s] else [s[..n]] + Pieces(s[n + 1..], delimiter)
  }

  lemma FirstPiece(text: string, delimiter: char, rest: string)
    requires delimiter !in text
    ensures Pieces(text + [delimiter] + rest, delimiter) == [text] + Pieces(rest, delimiter)
  {
    var s := text + [delimiter] + rest;
    forall k | 0 <= k < |text| ensures s[k] != delimiter { assert s[k] == text[k]; }
    FindIs(s, 0, |text|, delimiter);
    assert s[..|text|] == text && s[|text| + 1..] == rest;
  }

  lemma NumberPiece(n: int, delimiter: char, rest: string)
    requires delimiter == '|' || delimiter == '\n'
    ensures Pieces(Print(n) + [delimiter] + rest, delimiter) == [Print(n)] + Pieces(rest, delimiter)
  {
    hide Pieces, Print;
    PrintThenParse(n);
    FirstPiece(Print(n), delimiter, rest);
  }

  lemma LastPiece(n: int, delimiter: char)
    requires delimiter == '|' || delimiter == '\n'
    ensures Pieces(Print(n), delimiter) == [Print(n)]
  {
    hide Print;
    PrintThenParse(n);
    var s := Print(n);
    FindIs(s, 0, |s|, delimiter);
  }

  /** An entry: term, index and the length of the command, and the command at the end. */
  lemma EntryLayout(e: LogEntry)
    ensures var text := EncodeEntry(e);
      && |Pieces(text, '|')| >= 4
      && Pieces(text, '|')[..3] == [Print(e.term), Print(e.index), Print(|e.command|)]
      && |text| == |Print(e.term)| + |Print(e.index)| + |Print(|e.command|)| + 3 + |e.command|
      && text[|text| - |e.command|..] == e.command
  {
    hide Pieces, Print;
    var s2 := Print(|e.command|) + "|" + e.command;
    var s1 := Print(e.index) + "|" + s2;
    NumberPiece(e.term, '|', s1);
    NumberPiece(e.index, '|', s2);
    NumberPiece(|e.command|, '|', e.command);
  }

  /** A state file: term, vote and number of entries on its first three lines. */
  lemma StateLayout(d: Disk)
    ensures var lines := Pieces(EncodeState(d), '\n');
      |lines| >= 4 && lines[..3] == [Print(d.term), Print(d.vote), Print(|d.log|)]
  {
    hide Pieces, Print, EncodeLog;
    var s3 := EncodeLog(d.log);
    var s2 := Print(|d.log|) + "\n" + s3;
    var s1 := Print(d.vote) + "\n" + s2;
    NumberPiece(d.term, '\n', s1);
    NumberPiece(d.vote, '\n', s2);
    NumberPiece(|d.log|, '\n', s3);
  }

  /** A request: six numbers in this order. */
  lemma ArgsLayout(args: AppendEntriesArgs)
    ensures var pieces := Pieces(EncodeArgs(args), '|');
      && |pieces| >= 6
      && pieces[..3] == [Print(args.term), Print(args.leaderId), Print(args.prevLogIndex)]
      && pieces[3..6] == [Print(args.prevLogTerm), Print(args.leaderCommit), Print(|args.entries|)]
  {
    hide Pieces, Print, EncodeEntries;
    var s5 := Print(|args.entries|) + EncodeEntries(args.entries);
    var s4 := Print(args.leaderCommit) + "|" + s5;
    var s3 := Print(args.prevLogTerm) + "|" + s4;
    var s2 := Print(args.prevLogIndex) + "|" + s3;
    var s1 := Print(args.leaderId) + "|" + s2;
    NumberPiece(args.term, '|', s1);
    NumberPiece(args.leaderId, '|', s2);
    NumberPiece(args.prevLogIndex, '|', s3);
    NumberPiece(args.prevLogTerm, '|', s4);
    NumberPiece(args.leaderCommit, '|', s5);
    CountPiece(|args.entries|, EncodeEntries(args.entries));
  }

  lemma CountPiece(n: nat, body: string)
    requires body == "" || body[0] == '|'
    ensures Pieces(Print(n) + body, '|')[0] == Print(n)
  {
    hide Pieces, Print;
    if body == "" {
      LastPiece(n, '|');
      assert Print(n) + body == Print(n);
    } else {
      assert Print(n) + body == Print(n) + "|" + body[1..];
      NumberPiece(n, '|', body[1..]);
    }
  }

  /** The entries of a state file stand in the order of the log, each as the length of its
      text, a line end and its text. */
  lemma {:induction false} LogLayout(a: seq<LogEntry>, e: LogEntry)
    ensures EncodeLog(a + [e]) == EncodeLog(a) + (Print(|EncodeEntry(e)|) + "\n" + EncodeEntry(e))
    decreases |a|
  {
    hide EncodeEntry, Print;
    if a == [] {
      assert a + [e] == [e];
    } else {
      assert (a + [e])[1..] == a[1..] + [e];
      LogLayout(a[1..], e);
    }
  }

  /** The entries of a request stand in order, each behind a delimiter, the length of its text
      and another delimiter. */
  lemma {:induction false} EntriesLayout(a: seq<LogEntry>, e: LogEntry)
    ensures EncodeEntries(a + [e]) == EncodeEntries(a) + ("|" + Print(|EncodeEntry(e)|) + "|" + EncodeEntry(e))
    decreases |a|
  {
    hide EncodeEntry, Print;
    if a == [] {
      assert a + [e] == [e];
    } else {
      assert (a + [e])[1..] == a[1..] + [e];
      EntriesLayout(a[1..], e);
    }
  }
}
