/**
 * The layout of one entry of the text export: a header line with the date,
 * the sender and the recipient, then the text and a blank line.
 */
module TxtLayout {
  import opened Wrappers
  import opened Text

  /** The header of an entry: date, sender and, when known, `-> recipient`. */
  function TxtHeader(date: string, sender: string, recipient: string): string
  {
    date + " " + sender + (if recipient != "" then " -> " + recipient else "")
  }

  /**
   * One entry of the text file: the header and a colon, then the text and a
   * blank line; the bare text when there is neither date nor sender.
   */
  function TxtLine(date: string, sender: string, recipient: string, text: string): (r: string)
    ensures EndsWith(r, text + "\n\n")
    ensures date == "" && sender == "" ==> r == text + "\n\n"
    ensures date != "" || sender != "" ==> StartsWith(r, date + " " + sender)
  {
    var body := text + "\n\n";
    if date != "" || sender != "" then
      var head := TxtHeader(date, sender, recipient) + ":\n";
      assert (head + body)[|head + body| - |body|..] == body;
      assert (head + body)[..|date + " " + sender|] == date + " " + sender;
      head + body
    else body
  }

  /** A header built from parts without line breaks has none. */
  lemma HeaderUnbroken(date: string, sender: string, recipient: string)
    requires '\n' !in date && '\n' !in sender && '\n' !in recipient
    ensures '\n' !in TxtHeader(date, sender, recipient) + ":"
  {
    var tail := if recipient != "" then " -> " + recipient else "";
    assert '\n' !in tail;
    assert TxtHeader(date, sender, recipient) + ":" == date + " " + sender + tail + ":";
  }

  /** The first line break of `r` follows `head` and a colon, and `body` is what comes after it. */
  predicate ReadsBack(r: string, head: string, body: string)
  {
    Find(r, '\n') == Some(|head| + 1) && |head| + 2 <= |r| && r[..|head|] == head && r[|head| + 2..] == body
  }

  /**
   * A header holds no line break of its own, so the first line break of the
   * entry ends it: before it the header and a colon, after it the text.
   */
  lemma TxtLineReadBack(date: string, sender: string, recipient: string, text: string)
    requires date != "" || sender != ""
    requires '\n' !in date && '\n' !in sender && '\n' !in recipient
    ensures ReadsBack(TxtLine(date, sender, recipient, text), TxtHeader(date, sender, recipient), text + "\n\n")
  {
    var head := TxtHeader(date, sender, recipient);
    var r := TxtLine(date, sender, recipient, text);
    TxtLineShape(date, sender, recipient, text, head, r);
    SplitAtBreak(head, text + "\n\n", r);
  }

  /** An entry with a header is the header, a colon, a line break and the body; the header has no break. */
  lemma TxtLineShape(date: string, sender: string, recipient: string, text: string, head: string, r: string)
    requires date != "" || sender != ""
    requires '\n' !in date && '\n' !in sender && '\n' !in recipient
    requires head == TxtHeader(date, sender, recipient) && r == TxtLine(date, sender, recipient, text)
    ensures '\n' !in head + ":" && r == (head + ":") + ['\n'] + (text + "\n\n")
  {
    HeaderUnbroken(date, sender, recipient);
  }

  /** A line without a break, a colon and a break: the first break ends the line. */
  lemma SplitAtBreak(head: string, body: string, r: string)
    requires '\n' !in head + ":" && r == (head + ":") + ['\n'] + body
    ensures ReadsBack(r, head, body)
  {
    FindAfter(head + ":", '\n', body);
    assert r[..|head|] == head;
    assert r[|head| + 2..] == body;
  }
}
