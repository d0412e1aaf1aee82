/**
 * The command channel of nhc/controller.py: `_send`, which checks the
 * decoded reply for an error and hands back its `data`, and `execute`,
 * which formats the `executeactions` command text. The socket exchange
 * itself is outside the model: the decoded reply is an argument.
 */
module Commands {
  import opened Wrappers
  import opened Json

  /** The exception `raise Exception(error['error'])` ends up raising for a truthy `error`. */
  function RaiseFor(error: Value): (e: Error)
    ensures error.Obj? && "error" in error.fields ==> e == Raised(error.fields["error"])
    ensures error.Obj? && "error" !in error.fields ==> e == KeyError(Str("error"))
    ensures !error.Obj? ==> e == TypeError
  {
    match Index(error, "error")
    case Ok(argument) => Raised(argument)
    case Err(e) => e
  }

  /**
   * `_send` given the decoded reply: `reply['data']`, unless `'error' in data`
   * and `data['error']` is truthy. Python's `in` is membership for a list and
   * substring search for a string, and indexing those with 'error' raises
   * TypeError.
   */
  function Send(reply: Value): (r: Result<Value, Error>)
    ensures r.Ok? ==> reply.Obj? && "data" in reply.fields && r.value == reply.fields["data"]
    ensures !reply.Obj? ==> r == Err(TypeError)
    ensures reply.Obj? && "data" !in reply.fields ==> r == Err(KeyError(Str("data")))
    ensures reply.Obj? && "data" in reply.fields && reply.fields["data"].Obj? ==>
      var m := reply.fields["data"].fields;
      (r.Err? <==> "error" in m && Truthy(m["error"])) &&
      (r.Err? ==> r.error == RaiseFor(m["error"]))
  {
    match Index(reply, "data")
    case Err(e) => Err(e)
    case Ok(data) =>
      match data
      case Obj(m) => if "error" in m && Truthy(m["error"]) then Err(RaiseFor(m["error"])) else Ok(data)
      case Arr(items) => if Str("error") in items then Err(TypeError) else Ok(data)
      case Str(s) => if Occurs("error", s) then Err(TypeError) else Ok(data)
      case _ => Err(TypeError)
  }

  /** A reply whose `data` object carries no error, or a falsy one, is returned unchanged. */
  lemma SendWithoutError(data: Record)
    ensures Send(Obj(map["data" := Obj(data)])) == Ok(Obj(data)) <==> "error" !in data || !Truthy(data["error"])
    ensures "error" in data && data["error"] in {Null, Bool(false), Int(0), Str("")} ==>
      Send(Obj(map["data" := Obj(data)])) == Ok(Obj(data))
  {
  }

  /**
   * The error shapes a reply's `data` may carry. Only a dict with an `error`
   * key makes `_send` raise an Exception with that value. An integer code
   * other than 0 raises TypeError, since an int cannot be indexed; a dict
   * without the key raises KeyError('error'); the code 0 is falsy and passes.
   */
  lemma SendErrorShapes(c: int, inner: Record)
    ensures c != 0 ==> Send(Obj(map["data" := Obj(map["error" := Int(c)])])) == Err(TypeError)
    ensures c == 0 ==> Send(Obj(map["data" := Obj(map["error" := Int(c)])])) == Ok(Obj(map["error" := Int(c)]))
    ensures inner != map[] && "error" in inner ==>
      Send(Obj(map["data" := Obj(map["error" := Obj(inner)])])) == Err(Raised(inner["error"]))
    ensures inner != map[] && "error" !in inner ==>
      Send(Obj(map["data" := Obj(map["error" := Obj(inner)])])) == Err(KeyError(Str("error")))
  {
  }

  const ExecuteHead: string := "{\"cmd\": \"executeactions\", \"id\": \""
  const ExecuteMiddle: string := "\", \"value1\": \""
  const ExecuteTail: string := "\"}"

  /** The text `'{"cmd": "%s", "id": "%s", "value1": "%s"}' % ("executeactions", id, value)`. */
  function ExecuteText(id: string, value: string): string {
    ExecuteHead + id + ExecuteMiddle + value + ExecuteTail
  }

  /** The command `execute(id, value)` sends: both arguments go through `str` into quoted strings. */
  function ExecuteCommand(id: Value, value: Value): string {
    ExecuteText(PyStr(id), PyStr(value))
  }

  /** What one `execute` does: the text it sends, and whether `_send` raised on the reply. */
  datatype Exchange = Exchange(sent: string, outcome: Outcome<Error>)

  function Execute(id: Value, value: Value, reply: Value): (x: Exchange)
    ensures x.sent == ExecuteCommand(id, value)
    ensures x.outcome == Pass <==> Send(reply).Ok?
    ensures x.outcome.Fail? ==> x.outcome.error == Send(reply).error
  {
    Exchange(ExecuteCommand(id, value), match Send(reply) case Ok(_) => Pass case Err(e) => Fail(e))
  }

  /** The position of the first double quote in `s`, or `|s|`. */
  function QuoteIndex(s: string): (i: nat)
    ensures i <= |s|
    ensures '"' !in s[..i]
    ensures i < |s| ==> s[i] == '"'
  {
    if s == [] then 0 else if s[0] == '"' then 0 else 1 + QuoteIndex(s[1..])
  }

  /**
   * Splits `head + a + middle + b + tail` back into `a` and `b`, where `a`
   * and `b` end at the first double quote after `head` and after `middle`.
   */
  function ParseQuoted(head: string, middle: string, tail: string, t: string): Option<(string, string)> {
    if !(head <= t) then None
    else
      var rest := t[|head|..];
      var i := QuoteIndex(rest);
      var afterFirst := rest[i..];
      if !(middle <= afterFirst) then None
      else
        var last := afterFirst[|middle|..];
        var j := QuoteIndex(last);
        if last[j..] == tail then Some((rest[..i], last[..j])) else None
  }

  /** Reads the id and value back out of an `executeactions` text; the partner of ExecuteText. */
  function ParseExecute(t: string): Option<(string, string)> {
    ParseQuoted(ExecuteHead, ExecuteMiddle, ExecuteTail, t)
  }

  lemma {:induction false} QuoteIndexPrefix(a: string, s: string)
    requires '"' !in a && s != [] && s[0] == '"'
    ensures QuoteIndex(a + s) == |a|
    decreases |a|
  {
    if a != [] {
      assert (a + s)[1..] == a[1..] + s;
      QuoteIndexPrefix(a[1..], s);
    }
  }

  lemma ParseQuotedRoundTrip(head: string, middle: string, tail: string, a: string, b: string)
    requires middle != [] && middle[0] == '"' && tail != [] && tail[0] == '"'
    requires '"' !in a && '"' !in b
    ensures ParseQuoted(head, middle, tail, head + a + middle + b + tail) == Some((a, b))
  {
    var t := head + a + middle + b + tail;
    assert t == head + (a + middle + b + tail);
    var rest := t[|head|..];
    assert rest == a + (middle + b + tail);
    QuoteIndexPrefix(a, middle + b + tail);
    var afterFirst := rest[|a|..];
    assert afterFirst == middle + (b + tail);
    var last := afterFirst[|middle|..];
    assert last == b + tail;
    QuoteIndexPrefix(b, tail);
  }

  lemma ParseQuotedSound(head: string, middle: string, tail: string, t: string)
    requires ParseQuoted(head, middle, tail, t).Some?
    ensures '"' !in ParseQuoted(head, middle, tail, t).value.0
    ensures '"' !in ParseQuoted(head, middle, tail, t).value.1
    ensures t == head + ParseQuoted(head, middle, tail, t).value.0 + middle + ParseQuoted(head, middle, tail, t).value.1 + tail
  {
    var rest := t[|head|..];
    var i := QuoteIndex(rest);
    var afterFirst := rest[i..];
    var last := afterFirst[|middle|..];
    var j := QuoteIndex(last);
    assert ParseQuoted(head, middle, tail, t) == Some((rest[..i], last[..j]));
    Rejoin(head, middle, tail, t, rest, rest[..i], afterFirst, last, last[..j]);
  }

  /** Pieces cut off the front one after another join back into the whole text. */
  lemma Rejoin(head: string, middle: string, tail: string, t: string,
               rest: string, a: string, afterFirst: string, last: string, b: string)
    requires head <= t && rest == t[|head|..]
    requires a <= rest && afterFirst == rest[|a|..]
    requires middle <= afterFirst && last == afterFirst[|middle|..]
    requires b <= last && tail == last[|b|..]
    ensures t == head + a + middle + b + tail
  {
    PrefixSplit(b, last);
    PrefixSplit(middle, afterFirst);
    PrefixSplit(a, rest);
    PrefixSplit(head, t);
    Reassociate(head, a, middle, b, tail);
  }

  lemma PrefixSplit(p: string, s: string)
    requires p <= s
    ensures s == p + s[|p|..]
  {
  }

  lemma Reassociate(a: string, b: string, c: string, d: string, e: string)
    ensures a + (b + (c + (d + e))) == a + b + c + d + e
  {
  }

  /** Texts without double quotes come back out of the command text unchanged. */
  lemma ExecuteTextRoundTrip(id: string, value: string)
    requires '"' !in id && '"' !in value
    ensures ParseExecute(ExecuteText(id, value)) == Some((id, value))
  {
    ParseQuotedRoundTrip(ExecuteHead, ExecuteMiddle, ExecuteTail, id, value);
  }

  /** Whatever parses as a command is exactly the command text of what it parses to. */
  lemma ParseExecuteSound(t: string)
    requires ParseExecute(t).Some?
    ensures '"' !in ParseExecute(t).value.0 && '"' !in ParseExecute(t).value.1
    ensures t == ExecuteText(ParseExecute(t).value.0, ParseExecute(t).value.1)
  {
    ParseQuotedSound(ExecuteHead, ExecuteMiddle, ExecuteTail, t);
  }

  /**
   * `execute(id, value)` with an integer value: the command carries the id
   * text and the value's decimal text, both quoted, and the decimal text
   * reads back as the value.
   */
  lemma ExecuteCommandIntValue(id: Value, value: int)
    requires '"' !in PyStr(id)
    ensures ParseExecute(ExecuteCommand(id, Int(value))) == Some((PyStr(id), IntToDecimal(value)))
    ensures ParseInt(ParseExecute(ExecuteCommand(id, Int(value))).value.1) == Some(value)
  {
    ExecuteTextRoundTrip(PyStr(id), IntToDecimal(value));
    IntDecimalRoundTrip(value);
  }

  /** The end-to-end example: `execute("1", 255)` sends the executeactions line for that id and value. */
  lemma ExecuteExample()
    ensures ExecuteCommand(Str("1"), Int(255)) == "{\"cmd\": \"executeactions\", \"id\": \"1\", \"value1\": \"255\"}"
  {
    assert IntToDecimal(255) == "255";
  }
}
