/**
 * The command-line options record and the post-processing of `parse_args`:
 * the comma-separated chat argument becomes a list of trimmed, non-blank
 * identifiers, and the first of them is the single `chat`.
 */
module Arguments {
  import opened Wrappers
  import opened Text

  /** `CLIOptions`: one field per option, with argparse's values (the parser itself is not modelled). */
  datatype CLIOptions = CLIOptions(
    chat: Option<string>,
    chats: seq<string>,
    output: Option<string>,
    limit: int,
    sinceId: Option<int>,
    config: Option<string>,
    debug: bool,
    showConfig: bool,
    subchat: Option<string>,
    subchatName: Option<string>,
    user: Option<string>,
    fromDate: Option<string>,
    lastDays: Option<int>,
    until: Option<string>,
    split: Option<string>,
    sort: string,
    resultsJson: bool,
    keywords: Option<string>,
    preset: Option<string>)

  /** The attribute names `CLIOptions` declares, in declaration order: what `hasattr` finds on it. */
  const OptionFields: seq<string> := [
    "chat", "chats", "output", "limit", "since_id", "config", "debug", "show_config", "subchat",
    "subchat_name", "user", "from_date", "last_days", "until", "split", "sort", "results_json",
    "keywords", "preset"]

  /** The options of a command line that gives nothing but the chat: the declared defaults. */
  function Defaults(chat: Option<string>): (o: CLIOptions)
    ensures o.limit == 0 && o.sort == "asc" && o.output.None? && o.subchatName.None?
    ensures o.sinceId.None? && o.lastDays.None? && !o.showConfig && o.chats == []
  {
    CLIOptions(chat, [], None, 0, None, None, false, false, None, None, None, None, None, None, None, "asc", false, None, None)
  }

  /** `[c.strip() for c in parts if c.strip()]`: the pieces, stripped, without the blank ones. */
  function NonBlankStripped(parts: seq<string>): (r: seq<string>)
    ensures |r| <= |parts|
    ensures forall i :: 0 <= i < |r| ==> r[i] != ""
  {
    if parts == [] then []
    else
      var rest := NonBlankStripped(parts[..|parts| - 1]);
      var c := Strip(parts[|parts| - 1]);
      if c != "" then rest + [c] else rest
  }

  /** A piece is kept iff it is some input part, stripped, and not blank. */
  lemma {:induction false} NonBlankStrippedFrom(parts: seq<string>, c: string)
    requires c in NonBlankStripped(parts)
    ensures c != "" && exists i :: 0 <= i < |parts| && Strip(parts[i]) == c
  {
    var n := |parts| - 1;
    var p := parts[..n];
    assert NonBlankStripped(parts) == NonBlankStripped(p) + if Strip(parts[n]) != "" then [Strip(parts[n])] else [];
    if c in NonBlankStripped(p) {
      NonBlankStrippedFrom(p, c);
      var i :| 0 <= i < n && Strip(p[i]) == c;
      assert p[i] == parts[i];
    } else {
      assert Strip(parts[n]) == c;
    }
  }

  /** Every non-blank part is kept, stripped. */
  lemma {:induction false} NonBlankStrippedKeeps(parts: seq<string>, i: nat)
    requires i < |parts| && Strip(parts[i]) != ""
    ensures Strip(parts[i]) in NonBlankStripped(parts)
  {
    var n := |parts| - 1;
    var p := parts[..n];
    if i < n {
      assert p[i] == parts[i];
      NonBlankStrippedKeeps(p, i);
      KeptBefore(parts, Strip(parts[i]));
    } else {
      KeptLast(parts, Strip(parts[i]));
    }
  }

  /** What is kept from all but the last part is kept from all of them. */
  lemma KeptBefore(parts: seq<string>, x: string)
    requires parts != [] && x in NonBlankStripped(parts[..|parts| - 1])
    ensures x in NonBlankStripped(parts)
  {
  }

  /** The last part is kept when it is not blank. */
  lemma KeptLast(parts: seq<string>, x: string)
    requires parts != [] && x == Strip(parts[|parts| - 1]) && x != ""
    ensures x in NonBlankStripped(parts)
  {
    var r := NonBlankStripped(parts);
    assert r == NonBlankStripped(parts[..|parts| - 1]) + [x];
    assert r[|r| - 1] == x;
  }

  /** Nothing is kept iff every part is blank. */
  lemma NonBlankStrippedEmpty(parts: seq<string>)
    ensures NonBlankStripped(parts) == [] <==> forall i :: 0 <= i < |parts| ==> Strip(parts[i]) == ""
  {
    if NonBlankStripped(parts) == [] {
      forall i | 0 <= i < |parts| ensures Strip(parts[i]) == "" {
        if Strip(parts[i]) != "" {
          NonBlankStrippedKeeps(parts, i);
        }
      }
    } else {
      NonBlankStrippedFrom(parts, NonBlankStripped(parts)[0]);
    }
  }

  /**
   * The end of `parse_args`: a truthy chat argument is split on commas; the
   * list becomes `chats` and its first element `chat`. A list with no
   * non-blank element makes `chat_list[0]` raise `IndexError`.
   */
  function PostProcess(raw: CLIOptions): (r: Result<CLIOptions, string>)
  {
    if raw.chat.Some? && raw.chat.value != "" then
      var list := NonBlankStripped(Split(raw.chat.value, ','));
      if list == [] then Failure("IndexError: list index out of range")
      else Success(raw.(chat := Some(list[0]), chats := list))
    else Success(raw.(chats := []))
  }

  /**
   * After post-processing, `chats` holds trimmed, non-blank identifiers
   * without commas, `chat` is the first of them, and everything else is as
   * parsed. A missing or empty chat argument gives no chats.
   */
  lemma PostProcessChats(raw: CLIOptions)
    ensures var r := PostProcess(raw);
      r.Success? ==>
        (forall i :: 0 <= i < |r.value.chats| ==>
           r.value.chats[i] != "" && ',' !in r.value.chats[i] && Strip(r.value.chats[i]) == r.value.chats[i])
        && (r.value.chats != [] ==> r.value.chat == Some(r.value.chats[0]))
        && (r.value.chats == [] <==> raw.chat.None? || raw.chat.value == "")
        && r.value == raw.(chat := r.value.chat, chats := r.value.chats)
    ensures PostProcess(raw).Failure? <==> raw.chat.Some? && raw.chat.value != "" && NonBlankStripped(Split(raw.chat.value, ',')) == []
  {
    if raw.chat.Some? && raw.chat.value != "" {
      NonBlankStrippedPieces(Split(raw.chat.value, ','), ',');
    }
  }

  /** The identifiers `NonBlankStripped` keeps are stripped pieces, so a separator none of the pieces holds is in none of them. */
  lemma {:induction false} NonBlankStrippedPieces(parts: seq<string>, sep: char)
    requires forall i :: 0 <= i < |parts| ==> sep !in parts[i]
    ensures forall i :: 0 <= i < |NonBlankStripped(parts)| ==> sep !in NonBlankStripped(parts)[i] && Strip(NonBlankStripped(parts)[i]) == NonBlankStripped(parts)[i]
  {
    if parts != [] {
      var init := parts[..|parts| - 1];
      assert forall i :: 0 <= i < |init| ==> init[i] == parts[i];
      NonBlankStrippedPieces(init, sep);
      StrippedPiece(parts[|parts| - 1], sep);
    }
  }

  /** Stripping a piece keeps a missing separator missing, and a stripped piece strips to itself. */
  lemma StrippedPiece(p: string, sep: char)
    requires sep !in p
    ensures sep !in Strip(p) && Strip(Strip(p)) == Strip(p)
  {
    StripIsInfix(p);
    StripOfUnspaced(Strip(p));
  }

  /** The documented example: `"chat1, chat2"` gives the chats `chat1` and `chat2`, and `chat1` as the chat. */
  lemma TwoChatsExample(arg: string)
    requires arg == "chat1, chat2"
    ensures var r := PostProcess(Defaults(Some(arg)));
      r.Success? && r.value.chats == ["chat1", "chat2"] && r.value.chat == Some("chat1")
  {
    TwoChatsPieces(arg);
    TwoChatsList(Split(arg, ','));
    var raw := Defaults(Some(arg));
    ListedChats(raw, ["chat1", "chat2"]);
  }

  /** A chat argument whose non-blank pieces are `list` sets `chats` to `list` and `chat` to its first element. */
  lemma ListedChats(raw: CLIOptions, list: seq<string>)
    requires raw.chat.Some? && raw.chat.value != "" && list != []
    requires NonBlankStripped(Split(raw.chat.value, ',')) == list
    ensures PostProcess(raw) == Success(raw.(chat := Some(list[0]), chats := list))
  {
  }

  lemma TwoChatsList(parts: seq<string>)
    requires parts == ["chat1", " chat2"]
    ensures NonBlankStripped(parts) == ["chat1", "chat2"]
  {
    TwoChatsStripped();
    assert parts[..1] == ["chat1"];
    assert NonBlankStripped(parts[..1]) == ["chat1"];
  }

  lemma TwoChatsPieces(arg: string)
    requires arg == "chat1, chat2"
    ensures Split(arg, ',') == ["chat1", " chat2"]
  {
    assert arg == "chat1" + [','] + " chat2";
    SplitAfter("chat1", ',', " chat2");
    assert ',' !in " chat2";
  }

  lemma TwoChatsStripped()
    ensures Strip("chat1") == "chat1" && Strip(" chat2") == "chat2"
  {
    StripWord("chat1");
    LTrimSpace("chat2");
    StripWord("chat2");
  }

  lemma StripWord(w: string)
    requires |w| == 5 && w[0] == 'c' && '0' <= w[4] <= '9'
    ensures Strip(w) == w
  {
    StripOfUnspaced(w);
  }

  /** A chat argument made only of commas leaves no identifier, and `parse_args` raises. */
  lemma OnlyCommasFails(arg: string)
    requires arg == ",,"
    ensures PostProcess(Defaults(Some(arg))).Failure?
  {
    assert arg == "" + [','] + ",";
    SplitAfter("", ',', ",");
    assert "," == "" + [','] + "";
    SplitAfter("", ',', "");
    assert Split(arg, ',') == ["", "", ""];
    assert ["", "", ""][..2] == ["", ""];
    assert ["", ""][..1] == [""];
  }
}
