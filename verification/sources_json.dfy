/** The JSON text the C# service stores for a response's sources list
    (`JsonSerializer.Serialize` of a `List<string>`) and reads back in the
    history query (`JsonSerializer.Deserialize<List<string>>`). The writer
    escapes only `"` and `\`; the reader accepts what the writer produces,
    the literal `null`, and refuses anything else. */
module SourcesJson {
  import opened Wrappers

  /** What reading a stored text gives: a list, JSON `null`, or a parse error. */
  datatype Parsed = List(items: seq<string>) | JsonNull | Malformed

  const MalformedMessage := "The JSON value could not be converted to a list of strings."

  function Escape(s: string): string {
    if s == [] then []
    else (if s[0] == '"' || s[0] == '\\' then ['\\', s[0]] else [s[0]]) + Escape(s[1..])
  }

  /** The array's elements followed by its closing bracket. */
  function Items(xs: seq<string>): (text: string)
    requires xs != []
    ensures |text| >= 3 && text[0] == '"' && text[|text| - 1] == ']'
  {
    "\"" + Escape(xs[0]) + "\"" + (if |xs| == 1 then "]" else "," + Items(xs[1..]))
  }

  function Serialize(xs: seq<string>): (text: string)
    ensures |text| >= 2 && text[0] == '[' && text[|text| - 1] == ']'
  {
    if xs == [] then "[]" else "[" + Items(xs)
  }

  /** Reads a string body up to its closing quote: the decoded text and what
      follows the quote. */
  function ParseString(t: string): (r: Option<(string, string)>)
    ensures r.Some? ==> |r.value.1| < |t|
  {
    if t == [] then None
    else if t[0] == '"' then Some(([], t[1..]))
    else if t[0] == '\\' then
      if |t| >= 2 && (t[1] == '"' || t[1] == '\\') then
        match ParseString(t[2..])
        case None => None
        case Some((s, rest)) => Some(([t[1]] + s, rest))
      else None
    else
      match ParseString(t[1..])
      case None => None
      case Some((s, rest)) => Some(([t[0]] + s, rest))
  }

  /** Reads `"..."` elements separated by commas up to the closing bracket,
      which must end the text. */
  function ParseItems(t: string): Option<seq<string>>
    decreases |t|
  {
    if t == [] || t[0] != '"' then None
    else match ParseString(t[1..])
      case None => None
      case Some((s, rest)) =>
        if rest == "]" then Some([s])
        else if rest != [] && rest[0] == ',' then
          match ParseItems(rest[1..])
          case None => None
          case Some(more) => Some([s] + more)
        else None
  }

  function Deserialize(text: string): Parsed {
    if text == "null" then JsonNull
    else if text == "[]" then List([])
    else if text != [] && text[0] == '[' then
      match ParseItems(text[1..])
      case Some(xs) => List(xs)
      case None => Malformed
    else Malformed
  }

  lemma {:induction false} ParseEscaped(s: string, rest: string)
    ensures ParseString(Escape(s) + "\"" + rest) == Some((s, rest))
  {
    if s != [] {
      ParseEscaped(s[1..], rest);
      var t := Escape(s) + "\"" + rest;
      if s[0] == '"' || s[0] == '\\' {
        assert t[2..] == Escape(s[1..]) + "\"" + rest;
      } else {
        assert t[1..] == Escape(s[1..]) + "\"" + rest;
      }
      assert [s[0]] + s[1..] == s;
    }
  }

  /** A written element is read back up to its closing quote. */
  lemma ParseItemsHead(x: string, tail: string)
    ensures var t := "\"" + Escape(x) + "\"" + tail;
      t[0] == '"' && ParseString(t[1..]) == Some((x, tail))
  {
    var t := "\"" + Escape(x) + "\"" + tail;
    assert t[1..] == Escape(x) + "\"" + tail;
    ParseEscaped(x, tail);
  }

  /** Reading the last written element and the closing bracket. */
  lemma ParseItemsLast(x: string)
    ensures ParseItems("\"" + Escape(x) + "\"" + "]") == Some([x])
  {
    ParseItemsHead(x, "]");
  }

  /** Reading a written element followed by a comma and more elements. */
  lemma ParseItemsCons(x: string, rest: string, more: seq<string>)
    requires ParseItems(rest) == Some(more)
    ensures ParseItems("\"" + Escape(x) + "\"" + ("," + rest)) == Some([x] + more)
  {
    var tail := "," + rest;
    ParseItemsHead(x, tail);
    assert tail != "]" && tail[1..] == rest;
  }

  lemma {:induction false} ParseItemsRoundTrip(xs: seq<string>)
    requires xs != []
    ensures ParseItems(Items(xs)) == Some(xs)
  {
    if |xs| == 1 {
      ParseItemsLast(xs[0]);
      assert [xs[0]] == xs;
    } else {
      ParseItemsRoundTrip(xs[1..]);
      ParseItemsCons(xs[0], Items(xs[1..]), xs[1..]);
      HeadTail(xs);
    }
  }

  lemma HeadTail(xs: seq<string>)
    requires xs != []
    ensures [xs[0]] + xs[1..] == xs
  {
  }

  /** Reading back what was written gives the list unchanged. */
  lemma SerializeRoundTrip(xs: seq<string>)
    ensures Deserialize(Serialize(xs)) == List(xs)
  {
    if xs != [] {
      var text := Serialize(xs);
      assert text == "[" + Items(xs);
      assert |text| >= 4 && text[0] == '[';
      assert text != "null" && text != "[]";
      assert text[1..] == Items(xs);
      ParseItemsRoundTrip(xs);
    }
  }

  /** The `Sources` column for a backend reply's sources: JSON text, or
      `null` for no list. */
  function StoreSources(sources: Option<seq<string>>): (stored: Option<string>)
    ensures stored.None? <==> sources.None?
  {
    if sources.None? then None else Some(Serialize(sources.value))
  }

  /** The history query's reading of the column: `null` and JSON `null` give
      no list, a parse error raises. */
  function ReadSources(stored: Option<string>): Result<Option<seq<string>>> {
    if stored.None? then Success(None)
    else match Deserialize(stored.value)
      case List(xs) => Success(Some(xs))
      case JsonNull => Success(None)
      case Malformed => Failure(MalformedMessage)
  }

  /** A stored column reads back as the sources it was written from, `null`
      included. */
  lemma ReadStoredSources(sources: Option<seq<string>>)
    ensures ReadSources(StoreSources(sources)) == Success(sources)
  {
    if sources.Some? {
      SerializeRoundTrip(sources.value);
    }
  }
}
