/**
 The replicated state machine (src/storage/kv_store.cpp): commands applied to a skip list.
 It is compared with an interpreter over a plain map, which knows nothing of levels, nodes
 or text.
 */
module KVStores {
  import opened Commands
  import opened SkipLists

  type Contents = map<string, string>

  /** The plain interpreter: what a command does to a map, and what it answers. */
  function Execute(m: Contents, c: Command): (Contents, string) {
    match c.kind
    case PUT => (m[c.key := c.value], "OK")
    case GET => (m, if c.key in m then "VALUE:" + m[c.key] else "NOT_FOUND")
    case DELETE => (m - {c.key}, if c.key in m then "OK" else "NOT_FOUND")
  }

  function ExecuteAll(m: Contents, cs: seq<Command>): (r: (Contents, seq<string>))
    ensures |r.1| == |cs|
    decreases |cs|
  {
    if cs == [] then (m, [])
    else
      var (m1, answers) := ExecuteAll(m, cs[..|cs| - 1]);
      var (m2, answer) := Execute(m1, cs[|cs| - 1]);
      (m2, answers + [answer])
  }

  /** A text that is no command is refused and changes nothing. */
  function Interpret(m: Contents, text: string): (Contents, Result<string>) {
    match Deserialize(text)
    case Err(e) => (m, Err(e))
    case Ok(c) => var (m', answer) := Execute(m, c); (m', Ok(answer))
  }

  function InterpretAll(m: Contents, texts: seq<string>): (r: (Contents, seq<Result<string>>))
    ensures |r.1| == |texts|
    decreases |texts|
  {
    if texts == [] then (m, [])
    else
      var (m1, answers) := InterpretAll(m, texts[..|texts| - 1]);
      var (m2, answer) := Interpret(m1, texts[|texts| - 1]);
      (m2, answers + [answer])
  }

  // --- The texts ---

  /** The three kinds of text, spelled out. */
  ghost predicate Puts(text: string, key: string, value: string) {
    key != "" && ':' !in key && text == "PUT:" + key + ":" + value
  }

  ghost predicate Gets(text: string, key: string) {
    key != "" && text == "GET:" + key
  }

  ghost predicate Deletes(text: string, key: string) {
    key != "" && text == "DELETE:" + key
  }

  ghost predicate Writes(text: string, key: string) {
    Deletes(text, key) || exists value :: Puts(text, key, value)
  }

  lemma PutMeans(m: Contents, text: string, key: string, value: string)
    requires Puts(text, key, value)
    ensures Interpret(m, text) == (m[key := value], Ok("OK"))
    ensures Deserialize(text) == Ok(Command(PUT, key, value))
  {
    hide Deserialize;
    CommandRoundTrip(Command(PUT, key, value));
  }

  lemma GetMeans(m: Contents, text: string, key: string)
    requires Gets(text, key)
    ensures Interpret(m, text) == (m, Ok(if key in m then "VALUE:" + m[key] else "NOT_FOUND"))
    ensures Deserialize(text) == Ok(Command(GET, key, ""))
  {
    hide Deserialize;
    CommandRoundTrip(Command(GET, key, ""));
  }

  lemma DeleteMeans(m: Contents, text: string, key: string)
    requires Deletes(text, key)
    ensures Interpret(m, text) == (m - {key}, Ok(if key in m then "OK" else "NOT_FOUND"))
    ensures Deserialize(text) == Ok(Command(DELETE, key, ""))
  {
    hide Deserialize;
    CommandRoundTrip(Command(DELETE, key, ""));
  }

  /** Every text that is a command at all is of one of the three kinds. */
  lemma SomeKind(text: string)
    requires Deserialize(text).Ok?
    ensures var c := Deserialize(text).value;
      match c.kind
      case PUT => Puts(text, c.key, c.value)
      case GET => Gets(text, c.key)
      case DELETE => Deletes(text, c.key)
  {
    hide Deserialize;
    TextRoundTrip(text);
  }

  lemma OnlyKinds(m: Contents, text: string)
    ensures Interpret(m, text).1.Err? <==> forall key :: !Gets(text, key) && !Writes(text, key)
  {
    hide Deserialize, Puts, Gets, Deletes;
    if Deserialize(text).Ok? {
      SomeKind(text);
      var key := Deserialize(text).value.key;
      assert Gets(text, key) || Writes(text, key);
    } else {
      forall key ensures !Gets(text, key) && !Writes(text, key) {
        if Gets(text, key) { GetMeans(m, text, key); }
        if Deletes(text, key) { DeleteMeans(m, text, key); }
        if value :| Puts(text, key, value) { PutMeans(m, text, key, value); }
      }
    }
  }

  /** What a text does to the contents m, and its answer. */
  ghost predicate Obeys(m: Contents, text: string, m': Contents, answer: Result<string>) {
    && (forall key, value :: Puts(text, key, value) ==> m' == m[key := value] && answer == Ok("OK"))
    && (forall key :: Gets(text, key) ==> m' == m && answer == Ok(if key in m then "VALUE:" + m[key] else "NOT_FOUND"))
    && (forall key :: Deletes(text, key) ==>
          m' == m - {key} && answer == Ok(if key in m then "OK" else "NOT_FOUND"))
    && (answer.Err? <==> forall key :: !Gets(text, key) && !Writes(text, key))
    && (answer.Err? ==> m' == m)
  }

  lemma InterpretObeys(m: Contents, text: string)
    ensures Obeys(m, text, Interpret(m, text).0, Interpret(m, text).1)
  {
    hide Puts, Gets, Deletes;
    var (m', answer) := Interpret(m, text);
    forall key, value | Puts(text, key, value) ensures m' == m[key := value] && answer == Ok("OK") {
      PutMeans(m, text, key, value);
    }
    forall key | Gets(text, key)
      ensures m' == m && answer == Ok(if key in m then "VALUE:" + m[key] else "NOT_FOUND")
    {
      GetMeans(m, text, key);
    }
    forall key | Deletes(text, key)
      ensures m' == m - {key} && answer == Ok(if key in m then "OK" else "NOT_FOUND")
    {
      DeleteMeans(m, text, key);
    }
    OnlyKinds(m, text);
  }

  class KVStore {
    const store: SkipList

    ghost predicate Valid()
      reads this, store, store.all
    {
      store.Valid()
    }

    constructor ()
      ensures Valid() && fresh(store) && fresh(store.all) && store.contents == map[]
    {
      store := new SkipList();
    }

    method ApplyCommandWithResult(command: string) returns (result: Result<string>)
      requires Valid()
      modifies store, store.all
      ensures Valid() && (store.contents, result) == Interpret(old(store.contents), command)
      ensures Obeys(old(store.contents), command, store.contents, result)
      ensures forall n :: n in store.all ==> n in old(store.all) || fresh(n)
    {
      hide Obeys;
      InterpretObeys(store.contents, command);
      var parsed := Deserialize(command);
      if parsed.Err? { return Err(parsed.error); }
      var cmd := parsed.value;
      match cmd.kind {
        case PUT =>
          var lucky: nat -> bool := *;
          var inserted := store.Insert(cmd.key, cmd.value, lucky);
          return Ok("OK");
        case GET =>
          var found, value := store.Search(cmd.key);
          return Ok(if found then "VALUE:" + value else "NOT_FOUND");
        case DELETE =>
          var removed := store.Remove(cmd.key);
          return Ok(if removed then "OK" else "NOT_FOUND");
      }
    }
  }

  // --- What a history of texts comes to ---

  /** Text number i puts this value, and none of the texts from there up to n writes the key again. */
  ghost predicate LastPut(texts: seq<string>, n: nat, key: string, value: string, i: nat) {
    && i < n <= |texts| && Puts(texts[i], key, value)
    && forall j :: i < j < n ==> !Writes(texts[j], key)
  }

  /** After the first n texts the key has this value. */
  ghost predicate Has(texts: seq<string>, n: nat, key: string, value: string) {
    exists i: nat :: LastPut(texts, n, key, value, i)
  }

  /** The right answer to text number n: OK to a PUT; to a GET the value that the key has, if
      it has one; to a DELETE whether it has; and an error to anything else. */
  ghost predicate Answered(texts: seq<string>, n: nat, answer: Result<string>)
    requires n < |texts|
  {
    && (forall key, value :: Puts(texts[n], key, value) ==> answer == Ok("OK"))
    && (forall key, value :: Gets(texts[n], key) && Has(texts, n, key, value) ==> answer == Ok("VALUE:" + value))
    && (forall key :: Gets(texts[n], key) && (forall value :: !Has(texts, n, key, value)) ==> answer == Ok("NOT_FOUND"))
    && (forall key, value :: Deletes(texts[n], key) && Has(texts, n, key, value) ==> answer == Ok("OK"))
    && (forall key :: Deletes(texts[n], key) && (forall value :: !Has(texts, n, key, value)) ==>
          answer == Ok("NOT_FOUND"))
    && (answer.Err? <==> forall key :: !Gets(texts[n], key) && !Writes(texts[n], key))
  }

  /** The contents are the keys that have a value after all texts, with that value. */
  ghost predicate Remembers(texts: seq<string>, n: nat, m: Contents) {
    forall key, value :: key in m && m[key] == value <==> Has(texts, n, key, value)
  }

  /** What a key has after one more text. */
  lemma HasNext(texts: seq<string>, n: nat, key: string, value: string)
    requires n < |texts|
    ensures Has(texts, n + 1, key, value) <==>
            Puts(texts[n], key, value) || (Has(texts, n, key, value) && !Writes(texts[n], key))
  {
    hide Puts, Deletes;
    if Puts(texts[n], key, value) { assert LastPut(texts, n + 1, key, value, n); }
    if Has(texts, n, key, value) && !Writes(texts[n], key) {
      var i: nat :| LastPut(texts, n, key, value, i);
      assert LastPut(texts, n + 1, key, value, i);
    }
    if Has(texts, n + 1, key, value) {
      var i: nat :| LastPut(texts, n + 1, key, value, i);
      if i < n { assert LastPut(texts, n, key, value, i); }
    }
  }

  /** One more text at the interpreter, in terms of writes. */
  lemma InterpretWrites(m: Contents, text: string, key: string, value: string)
    ensures var m' := Interpret(m, text).0;
      key in m' && m'[key] == value <==>
      Puts(text, key, value) || (key in m && m[key] == value && !Writes(text, key))
  {
    hide Deserialize, Puts, Deletes, Gets;
    if Deserialize(text).Ok? { SomeKind(text); }
    if Puts(text, key, value) { PutMeans(m, text, key, value); }
    if Deletes(text, key) { DeleteMeans(m, text, key); }
    if v :| Puts(text, key, v) { PutMeans(m, text, key, v); }
  }

  lemma RemembersNext(texts: seq<string>, n: nat, m: Contents)
    requires n < |texts| && Remembers(texts, n, m)
    ensures Remembers(texts, n + 1, Interpret(m, texts[n]).0)
  {
    hide Interpret, Has, Puts, Writes;
    var m', next := Interpret(m, texts[n]).0, n + 1;
    forall key, value ensures key in m' && m'[key] == value <==> Has(texts, next, key, value) {
      HasNext(texts, n, key, value);
      InterpretWrites(m, texts[n], key, value);
    }
  }

  lemma AnswerIsRight(texts: seq<string>, n: nat, m: Contents)
    requires n < |texts| && Remembers(texts, n, m)
    ensures Answered(texts, n, Interpret(m, texts[n]).1)
  {
    hide Interpret, Puts, Gets, Deletes, Has;
    InterpretObeys(m, texts[n]);
    forall key ensures key in m <==> exists value :: Has(texts, n, key, value) {
      if key in m { assert Has(texts, n, key, m[key]); }
    }
  }

  /** The interpreter gives the right answers and ends with the right contents. */
  lemma {:induction false} HistoryIsRight(texts: seq<string>, n: nat)
    requires n <= |texts|
    ensures var (m, answers) := InterpretAll(map[], texts[..n]);
      Remembers(texts, n, m) && forall i :: 0 <= i < n ==> Answered(texts, i, answers[i])
  {
    hide Interpret, Answered, Remembers;
    if n == 0 {
      NothingYet(texts);
    } else {
      HistoryIsRight(texts, n - 1);
      assert texts[..n][..n - 1] == texts[..n - 1];
      var m := InterpretAll(map[], texts[..n - 1]).0;
      RemembersNext(texts, n - 1, m);
      AnswerIsRight(texts, n - 1, m);
    }
  }

  lemma NothingYet(texts: seq<string>)
    ensures Remembers(texts, 0, map[])
  {
  }

  /** A fresh store fed with texts, one callback for each, as the apply loop does.  Whatever
      levels the skip list draws on the way, it ends where the interpreter ends and answers
      what the interpreter answers. */
  method Replay(texts: seq<string>) returns (kv: KVStore, answers: seq<Result<string>>)
    ensures fresh(kv) && kv.Valid() && (kv.store.contents, answers) == InterpretAll(map[], texts)
    ensures Remembers(texts, |texts|, kv.store.contents)
    ensures |answers| == |texts| && forall n :: 0 <= n < |texts| ==> Answered(texts, n, answers[n])
  {
    kv := new KVStore();
    answers := [];
    for i := 0 to |texts|
      invariant kv.Valid() && fresh(kv) && fresh(kv.store) && fresh(kv.store.all)
      invariant (kv.store.contents, answers) == InterpretAll(map[], texts[..i])
    {
      var answer := kv.ApplyCommandWithResult(texts[i]);
      assert forall p :: 0 <= p < |kv.store.all| ==> kv.store.all[p] in kv.store.all;
      answers := answers + [answer];
      assert texts[..i + 1][..i] == texts[..i];
    }
    assert texts[..|texts|] == texts;
    HistoryIsRight(texts, |texts|);
  }

  // --- The text form takes nothing away ---

  ghost predicate TextsOf(texts: seq<string>, cs: seq<Command>) {
    |texts| == |cs| && forall i :: 0 <= i < |cs| ==> texts[i] == Serialize(cs[i]) && WellFormed(cs[i])
  }

  /** The interpreters at one more command. */
  lemma LastText(m: Contents, texts: seq<string>)
    requires texts != []
    ensures var (m1, answers) := InterpretAll(m, texts[..|texts| - 1]);
      InterpretAll(m, texts) == (Interpret(m1, texts[|texts| - 1]).0, answers + [Interpret(m1, texts[|texts| - 1]).1])
  {
    hide Interpret;
  }

  lemma LastCommand(m: Contents, cs: seq<Command>)
    requires cs != []
    ensures var (m1, answers) := ExecuteAll(m, cs[..|cs| - 1]);
      ExecuteAll(m, cs) == (Execute(m1, cs[|cs| - 1]).0, answers + [Execute(m1, cs[|cs| - 1]).1])
  {
    hide Execute;
  }

  lemma TextBehaves(m: Contents, c: Command)
    requires WellFormed(c)
    ensures Interpret(m, Serialize(c)) == (Execute(m, c).0, Ok(Execute(m, c).1))
  {
    hide Execute, Serialize, Deserialize, WellFormed;
    CommandRoundTrip(c);
  }

  lemma FrontTexts(texts: seq<string>, cs: seq<Command>)
    requires TextsOf(texts, cs) && cs != []
    ensures var last := |cs| - 1;
      && |texts| == |cs| && TextsOf(texts[..last], cs[..last])
      && texts[last] == Serialize(cs[last]) && WellFormed(cs[last])
  {
    hide Serialize, WellFormed;
  }

  /** Well-formed commands that went through their text form behave as the commands do. */
  lemma {:induction false} TextsBehave(m: Contents, cs: seq<Command>, texts: seq<string>)
    requires TextsOf(texts, cs)
    ensures InterpretAll(m, texts).0 == ExecuteAll(m, cs).0
    ensures forall i :: 0 <= i < |cs| ==> InterpretAll(m, texts).1[i] == Ok(ExecuteAll(m, cs).1[i])
    decreases |cs|
  {
    if cs != [] {
      hide InterpretAll, ExecuteAll, Interpret, Execute, Serialize, WellFormed, TextsOf;
      var last := |cs| - 1;
      FrontTexts(texts, cs);
      TextsBehave(m, cs[..last], texts[..last]);
      LastText(m, texts);
      LastCommand(m, cs);
      TextBehaves(ExecuteAll(m, cs[..last]).0, cs[last]);
    }
  }

  /** Feeding more commands never changes the answers already given. */
  lemma {:induction false} PrefixAnswers(m: Contents, texts: seq<string>, n: nat)
    requires n <= |texts|
    ensures InterpretAll(m, texts).1[..n] == InterpretAll(m, texts[..n]).1
    decreases |texts|
  {
    if n == |texts| {
      assert texts[..n] == texts;
    } else {
      PrefixAnswers(m, texts[..|texts| - 1], n);
      assert texts[..|texts| - 1][..n] == texts[..n];
    }
  }
}
