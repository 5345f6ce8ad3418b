/**
 The commands of the key-value store and their text form (src/storage/command.cpp).
 */
module Commands {
  import opened Streams

  datatype CommandType = PUT | GET | DELETE

  datatype Command = Command(kind: CommandType, key: string, value: string)

  datatype Error = EmptyString | MissingColon | InvalidType | MissingValue | EmptyKey

  datatype Result<T> = Ok(value: T) | Err(error: Error)

  function Serialize(c: Command): string {
    match c.kind
    case PUT => "PUT:" + c.key + ":" + c.value
    case GET => "GET:" + c.key
    case DELETE => "DELETE:" + c.key
  }

  /** A PUT key ends at the second colon, its value may hold more; the key of the other two
      is all the rest. */
  function Deserialize(s: string): Result<Command> {
    if s == "" then Err(EmptyString)
    else
      var first := Find(s, 0, ':');
      if first == |s| then Err(MissingColon)
      else if s[..first] == "PUT" then
        var second := Find(s, first + 1, ':');
        if second == |s| then Err(MissingValue)
        else if second == first + 1 then Err(EmptyKey)
        else Ok(Command(PUT, s[first + 1..second], s[second + 1..]))
      else if s[..first] != "GET" && s[..first] != "DELETE" then Err(InvalidType)
      else if first + 1 == |s| then Err(EmptyKey)
      else Ok(Command(if s[..first] == "GET" then GET else DELETE, s[first + 1..], ""))
  }

  /** What the text form can carry. */
  predicate WellFormed(c: Command) {
    c.key != "" && (if c.kind == PUT then ':' !in c.key else c.value == "")
  }

  lemma PrefixEnds(s: string, n: nat)
    requires n < |s| && s[n] == ':' && ':' !in s[..n]
    ensures Find(s, 0, ':') == n
  {
    forall k | 0 <= k < n ensures s[k] != ':' { assert s[k] == s[..n][k]; }
    FindIs(s, 0, n, ':');
  }

  lemma PutRoundTrip(key: string, value: string)
    ensures Deserialize(Serialize(Command(PUT, key, value))) == Ok(Command(PUT, key, value))
            <==> key != "" && ':' !in key
  {
    var s := "PUT:" + key + ":" + value;
    assert s[..3] == "PUT" && s[3] == ':';
    PrefixEnds(s, 3);
    assert s[4..4 + |key|] == key && s[4 + |key|] == ':' && s[4 + |key| + 1..] == value;
    if ':' !in key {
      forall k | 4 <= k < 4 + |key| ensures s[k] != ':' { assert s[k] == key[k - 4]; }
      FindIs(s, 4, 4 + |key|, ':');
    } else {
      var k :| 0 <= k < |key| && key[k] == ':';
      FindFirst(s, 4, 4 + k, ':');
    }
  }

  lemma {:induction false} FindFirst(s: string, i: nat, k: nat, c: char)
    requires i <= k < |s| && s[k] == c
    ensures Find(s, i, c) <= k
    decreases k - i
  {
    if i < k { FindFirst(s, i + 1, k, c); }
  }

  /** A command survives its text form if and only if it is well formed. */
  lemma CommandRoundTrip(c: Command)
    ensures Deserialize(Serialize(c)) == Ok(c) <==> WellFormed(c)
  {
    var s := Serialize(c);
    match c.kind {
      case PUT => PutRoundTrip(c.key, c.value);
      case GET =>
        assert s[..3] == "GET" && s[3] == ':' && s[4..] == c.key;
        PrefixEnds(s, 3);
      case DELETE =>
        assert s[..6] == "DELETE" && s[6] == ':' && s[7..] == c.key;
        PrefixEnds(s, 6);
    }
  }

  lemma {:induction false} FindFinds(s: string, i: nat, c: char)
    requires i <= |s|
    ensures var n := Find(s, i, c); (n < |s| ==> s[n] == c) && forall k :: i <= k < n ==> s[k] != c
    decreases |s| - i
  {
    if i < |s| && s[i] != c { FindFinds(s, i + 1, c); }
  }

  /** Text up to a place, the character there, and the text after it. */
  lemma SplitAt(s: string, n: nat)
    requires n < |s|
    ensures s == s[..n] + [s[n]] + s[n + 1..]
  {
  }

  lemma KeyHasNoColon(s: string, i: nat)
    requires i <= |s|
    ensures ':' !in s[i..Find(s, i, ':')]
  {
    FindFinds(s, i, ':');
    var key := s[i..Find(s, i, ':')];
    forall k | 0 <= k < |key| ensures key[k] != ':' { assert key[k] == s[i + k]; }
  }

  /** Every accepted text is the text of the command it gives, and that command is well formed. */
  lemma TextRoundTrip(s: string)
    requires Deserialize(s).Ok?
    ensures Serialize(Deserialize(s).value) == s && WellFormed(Deserialize(s).value)
  {
    var first := Find(s, 0, ':');
    FindFinds(s, 0, ':');
    SplitAt(s, first);
    if s[..first] == "PUT" { PutText(s); }
  }

  lemma PutText(s: string)
    requires Deserialize(s).Ok? && Find(s, 0, ':') == 3 && s[..3] == "PUT" && s[3] == ':'
    ensures Serialize(Deserialize(s).value) == s && WellFormed(Deserialize(s).value)
  {
    var second := Find(s, 4, ':');
    FindFinds(s, 4, ':');
    KeyHasNoColon(s, 4);
    assert s == s[..4] + s[4..second] + ":" + s[second + 1..];
    assert s[..4] == "PUT:";
  }
}
