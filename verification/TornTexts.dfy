/**
 Texts that were cut short: a state file or a request of which only a beginning is left is
 never taken for a whole one.
 */
module TornTexts {
  import opened RaftLog
  import opened RaftSpec
  import opened Streams
  import opened Codecs

  /** A proper beginning of a line and what follows it ends within the line or behind it. */
  lemma CutLine(text: string, delimiter: char, rest: string, p: string)
    requires delimiter !in text && p < text + [delimiter] + rest
    ensures |p| <= |text| ==> p == text[..|p|] && NextLine(p, delimiter) == if p == "" then NoLine else Line(p, "")
    ensures |p| > |text| ==> p[|text| + 1..] < rest && NextLine(p, delimiter) == Line(text, p[|text| + 1..])
  {
    var whole := text + [delimiter] + rest;
    assert p == whole[..|p|];
    if |p| <= |text| {
      assert p == text[..|p|];
      if p != "" { LastLine(p, delimiter); }
    } else {
      var p' := p[|text| + 1..];
      assert p == text + [delimiter] + p';
      assert p' == rest[..|p'|];
      LineThenRest(text, delimiter, p');
    }
  }

  lemma {:induction false} NoLeadingZero(n: nat)
    requires n >= 1
    ensures PrintNat(n)[0] != '0'
  {
    if n >= 10 { NoLeadingZero(n / 10); }
  }

  lemma {:induction false} PositiveValue(s: string)
    requires s != "" && s[0] != '0' && IsDigit(s[0])
    ensures Value(s) >= 1
  {
    if |s| > 1 { PositiveValue(s[..|s| - 1]); }
  }

  /** Some digits of a positive number are a positive number. */
  lemma CutNumber(n: nat, k: nat) returns (v: nat)
    requires n >= 1 && 1 <= k <= |Print(n)|
    ensures v >= 1 && Stoi(Print(n)[..k]) == Some(v) && Stoull(Print(n)[..k]) == Some(v)
  {
    var s := Print(n)[..k];
    PrintsDigits(n);
    NoLeadingZero(n);
    AllDigits(s);
    assert s[..|s|] == s;
    PositiveValue(s);
    v := Value(s);
  }

  lemma PrintedHasNo(n: int, delimiter: char)
    requires delimiter == '|' || delimiter == '\n'
    ensures delimiter !in Print(n) && Print(n) != ""
  {
    PrintThenParse(n);
  }

  /** A field that is cut short, or that nothing follows, leaves nothing to read. */
  lemma CutField(n: int, delimiter: char, rest: string, p: string)
    requires (delimiter == '|' || delimiter == '\n') && p < Print(n) + [delimiter] + rest
    ensures var f := NextField(p, delimiter);
      || f == NoField
      || f.rest == ""
      || (|p| > |Print(n)| && f == Field(n, p[|Print(n)| + 1..]) && p[|Print(n)| + 1..] < rest)
  {
    PrintedHasNo(n, delimiter);
    PrintThenParse(n);
    CutLine(Print(n), delimiter, rest, p);
  }

  /** An item of which only a beginning is left is refused; whole, it leaves a beginning of
      what follows. */
  lemma CutItem(e: LogEntry, delimiter: char, rest: string, p: string)
    requires (delimiter == '|' || delimiter == '\n') && p < EncodeItem(e, delimiter) + rest
    ensures DecodeItem(p, delimiter) == NoItem
            || (|p| >= |EncodeItem(e, delimiter)| && p[|EncodeItem(e, delimiter)|..] < rest
                && DecodeItem(p, delimiter) == Item(e, p[|EncodeItem(e, delimiter)|..]))
  {
    var body, item := EncodeEntry(e), EncodeItem(e, delimiter);
    if |p| >= |item| {
      var p' := p[|item|..];
      assert p == item + p' && p' == rest[..|p'|];
      ItemRoundTrip(e, delimiter, p');
    } else {
      assert p == item[..|p|];
      var number := Print(|body|);
      PrintedHasNo(|body|, delimiter);
      CutLine(number, delimiter, body, p);
      if |p| <= |number| {
        if p != "" { var v := CutNumber(|body|, |p|); }
      } else {
        PrintThenParse(|body|);
      }
    }
  }

  // --- The state file ---

  lemma {:induction false} TornLog(log: seq<LogEntry>, p: string)
    requires p < EncodeLog(log)
    ensures DecodeLog(p, |log|) == None
  {
    var item, more := EncodeItem(log[0], '\n'), EncodeLog(log[1..]);
    assert EncodeLog(log) == item + more;
    CutItem(log[0], '\n', more, p);
    if DecodeItem(p, '\n') == NoItem {
      DecodeLogFails(p, |log|);
    } else {
      TornLog(log[1..], p[|item|..]);
      DecodeLogStep(p, |log|, log[0], p[|item|..]);
    }
  }

  lemma NothingLeft(count: nat)
    requires count >= 1
    ensures DecodeLog("", count) == None && DecodeEntries("", count) == None
  {
  }

  /** A count that is cut short promises entries that are not there. */
  lemma ShortCount(count: nat, p: string)
    requires count >= 1 && |p| <= |Print(count)| && p == Print(count)[..|p|]
    requires NextLine(p, '\n') == if p == "" then NoLine else Line(p, "")
    ensures DecodeCount(p) == NoField || DecodeLog(DecodeCount(p).rest, DecodeCount(p).value) == None
  {
    hide Print, Stoi, Stoull, NextLine, DecodeLog, DecodeEntries;
    if p != "" {
      var v := CutNumber(count, |p|);
      NothingLeft(v);
    }
  }

  lemma WholeCount(count: nat, p: string, rest: string)
    requires NextLine(p, '\n') == Line(Print(count), rest)
    ensures DecodeCount(p) == Field(count, rest)
  {
    hide Print, Stoi, Stoull, NextLine;
    PrintThenParse(count);
  }

  lemma TornCount(count: nat, log: seq<LogEntry>, p: string)
    requires count == |log| >= 1 && p < Print(count) + "\n" + EncodeLog(log)
    ensures DecodeCount(p) == NoField || DecodeLog(DecodeCount(p).rest, DecodeCount(p).value) == None
  {
    hide Print, NextLine, EncodeLog, DecodeLog, DecodeCount;
    PrintedHasNo(count, '\n');
    CutLine(Print(count), '\n', EncodeLog(log), p);
    if |p| <= |Print(count)| {
      ShortCount(count, p);
    } else {
      var rest := p[|Print(count)| + 1..];
      WholeCount(count, p, rest);
      TornLog(log, rest);
    }
  }

  /** No proper beginning of a state file restores to anything.  (A node's log is never empty.) */
  lemma TornStateRefused(d: Disk, p: string)
    requires d.log != [] && p < EncodeState(d)
    ensures DecodeState(p) == None
  {
    var s2 := Print(|d.log|) + "\n" + EncodeLog(d.log);
    var s1 := Print(d.vote) + "\n" + s2;
    assert DecodeCount("") == NoField;
    CutField(d.term, '\n', s1, p);
    if NextField(p, '\n').Field? && NextField(p, '\n').rest != "" {
      var p1 := NextField(p, '\n').rest;
      CutField(d.vote, '\n', s2, p1);
      if NextField(p1, '\n').Field? && NextField(p1, '\n').rest != "" {
        TornCount(|d.log|, d.log, NextField(p1, '\n').rest);
      }
    }
  }

  // --- The request ---

  lemma {:induction false} TornEntries(entries: seq<LogEntry>, p: string)
    requires entries != [] && p < Skip(EncodeEntries(entries))
    ensures DecodeEntries(p, |entries|) == None
  {
    var item, more := EncodeItem(entries[0], '|'), EncodeEntries(entries[1..]);
    FirstItem(entries);
    CutItem(entries[0], '|', more, p);
    if DecodeItem(p, '|') == NoItem {
      DecodeEntriesFails(p, |entries|);
    } else {
      var p' := p[|item|..];
      DecodeEntriesStep(p, |entries|, entries[0], p');
      assert entries[1..] != [];
      FirstItem(entries[1..]);
      CutSkip(p', more);
      TornEntries(entries[1..], Skip(p'));
    }
  }

  lemma CutSkip(p: string, s: string)
    requires p < s && |s| >= 2
    ensures Skip(p) < Skip(s)
  {
    if p != "" { assert Skip(p) == Skip(s)[..|p| - 1]; }
  }

  lemma CutCount(n: nat, tail: string, p: string)
    requires n >= 1 && p < Print(n) + "|" + tail
    ensures var f := NextField(p, '|');
      || f == NoField
      || (f.value >= 1 && f.rest == "")
      || (f.value == n && f.rest < tail)
  {
    PrintedHasNo(n, '|');
    CutLine(Print(n), '|', tail, p);
    if |p| > |Print(n)| {
      PrintThenParse(n);
    } else if p != "" {
      var v := CutNumber(n, |p|);
    }
  }

  lemma BarFirst(entries: seq<LogEntry>)
    requires entries != []
    ensures Print(|entries|) + EncodeEntries(entries) == Print(|entries|) + "|" + Skip(EncodeEntries(entries))
  {
    var item, more := EncodeItem(entries[0], '|'), EncodeEntries(entries[1..]);
    assert EncodeEntries(entries) == "|" + item + more;
  }

  lemma NoEntriesCut(p: string)
    requires p < Print(0) + EncodeEntries([])
    ensures NextField(p, '|') == NoField
  {
    assert Print(0) + EncodeEntries([]) == "0";
    assert p == "";
  }

  lemma TornEntryCount(entries: seq<LogEntry>, p: string)
    requires p < Print(|entries|) + EncodeEntries(entries)
    ensures var f := NextField(p, '|');
            f.Field? ==> f.value >= 1 && DecodeEntries(f.rest, f.value) == None
  {
    if entries == [] {
      NoEntriesCut(p);
    } else {
      BarFirst(entries);
      CutCount(|entries|, Skip(EncodeEntries(entries)), p);
      EitherWay(entries, NextField(p, '|'));
    }
  }

  lemma EitherWay(entries: seq<LogEntry>, f: Field)
    requires entries != []
    requires f == NoField || (f.value >= 1 && f.rest == "")
             || (f.value == |entries| && f.rest < Skip(EncodeEntries(entries)))
    ensures f.Field? ==> f.value >= 1 && DecodeEntries(f.rest, f.value) == None
  {
    if f.Field? {
      if f.rest == "" { NothingLeft(f.value); } else { TornEntries(entries, f.rest); }
    }
  }

  predicate Continues(p: string) {
    NextField(p, '|').Field? && NextField(p, '|').rest != ""
  }

  /** No proper beginning of a request parses as a request. */
  lemma TornRequestRefused(args: AppendEntriesArgs, p: string)
    requires p < EncodeArgs(args)
    ensures DecodeArgs(p) == None
  {
    var s5 := Print(|args.entries|) + EncodeEntries(args.entries);
    var s4 := Print(args.leaderCommit) + "|" + s5;
    var s3 := Print(args.prevLogTerm) + "|" + s4;
    var s2 := Print(args.prevLogIndex) + "|" + s3;
    var s1 := Print(args.leaderId) + "|" + s2;
    assert NextField("", '|') == NoField;
    CutField(args.term, '|', s1, p);
    if Continues(p) {
      var p1 := NextField(p, '|').rest;
      CutField(args.leaderId, '|', s2, p1);
      if Continues(p1) {
        var p2 := NextField(p1, '|').rest;
        CutField(args.prevLogIndex, '|', s3, p2);
        if Continues(p2) {
          var p3 := NextField(p2, '|').rest;
          CutField(args.prevLogTerm, '|', s4, p3);
          if Continues(p3) {
            var p4 := NextField(p3, '|').rest;
            CutField(args.leaderCommit, '|', s5, p4);
            if Continues(p4) { TornEntryCount(args.entries, NextField(p4, '|').rest); }
          }
        }
      }
    }
  }
}
