/** The scraper's typed errors (ShikiParser/ParserErrors.py): each stores the
    title it was raised for, and `str()` of it is a fixed sentence around that
    title. */
module ParserErrors {
  import opened Wrappers
  import opened PyStr

  /** Both constructors default the title to the empty string, as the
      Python constructors do. */
  datatype ParserError =
    | TitleNameFormatError(title: string := "")
    | TitleNotFoundError(title: string := "")

  const MessageStart := "Title "
  const WrongFormatEnd := " has wrong format."
  const NotFoundEnd := " not found."

  /** `str(error)` */
  function Message(e: ParserError): string {
    match e
    case TitleNameFormatError(t) => MessageStart + t + WrongFormatEnd
    case TitleNotFoundError(t) => MessageStart + t + NotFoundEnd
  }

  /** Reads the kind of error and its title back from a message. */
  function ParseMessage(m: string): Option<ParserError> {
    if StartsWith(m, MessageStart) && EndsWith(m, WrongFormatEnd) && |MessageStart| + |WrongFormatEnd| <= |m| then
      Some(TitleNameFormatError(m[|MessageStart|..|m| - |WrongFormatEnd|]))
    else if StartsWith(m, MessageStart) && EndsWith(m, NotFoundEnd) && |MessageStart| + |NotFoundEnd| <= |m| then
      Some(TitleNotFoundError(m[|MessageStart|..|m| - |NotFoundEnd|]))
    else
      None
  }

  /** A message names its title verbatim and tells the two kinds apart, so
      the error can be recovered from its text. */
  lemma MessageRoundTrip(e: ParserError)
    ensures ParseMessage(Message(e)) == Some(e)
  {
    var m := Message(e);
    assert m[..|MessageStart|] == MessageStart;
    match e
    case TitleNameFormatError(t) =>
      assert m[|m| - |WrongFormatEnd|..] == WrongFormatEnd;
      assert m[|MessageStart|..|m| - |WrongFormatEnd|] == t;
    case TitleNotFoundError(t) =>
      assert m[|m| - |NotFoundEnd|..] == NotFoundEnd;
      assert m[|m| - 2] == 'd';
      assert !EndsWith(m, WrongFormatEnd);
      assert m[|MessageStart|..|m| - |NotFoundEnd|] == t;
  }

  /** Different errors never print the same message. */
  lemma MessageInjective(e1: ParserError, e2: ParserError)
    requires Message(e1) == Message(e2)
    ensures e1 == e2
  {
    MessageRoundTrip(e1);
    MessageRoundTrip(e2);
  }

  /** The errors raised with no argument carry the empty title and print
      with it. */
  lemma DefaultMessages()
    ensures TitleNameFormatError().title == "" && TitleNotFoundError().title == ""
    ensures Message(TitleNameFormatError()) == "Title  has wrong format."
    ensures Message(TitleNotFoundError()) == "Title  not found."
  {
    assert MessageStart + "" == MessageStart;
  }
}
