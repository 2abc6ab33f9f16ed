/**
 * `SCChatMenu`: a paged list shown in chat, eight items to a page, with a
 * title bar above and a footer below that links to the previous and the
 * next page.
 */
module SCChatMenu {
  import opened JString
  import opened Host

  const ITEMS_PER_PAGE: int := 8

  /** The index of the first item on page `page` (pages count from 1). */
  function Start(page: int): (r: int)
    ensures r + ITEMS_PER_PAGE == page * ITEMS_PER_PAGE
  {
    (page - 1) * ITEMS_PER_PAGE
  }

  /**
   * `(int) Math.ceil((double) count / 8)`, written with Dafny's division,
   * which rounds towards negative infinity for a positive divisor.
   */
  function MaxPages(count: int): (r: int)
    ensures (r - 1) * ITEMS_PER_PAGE < count <= r * ITEMS_PER_PAGE
  {
    -((-count) / ITEMS_PER_PAGE)
  }

  /** For a count that is not negative, the page count is the familiar `(count + 7) / 8`. */
  lemma MaxPagesOfCount(count: nat)
    ensures MaxPages(count) == (count + ITEMS_PER_PAGE - 1) / ITEMS_PER_PAGE
  {
    var m := MaxPages(count);
    var q := (count + ITEMS_PER_PAGE - 1) / ITEMS_PER_PAGE;
    assert (q - 1) * ITEMS_PER_PAGE < count <= q * ITEMS_PER_PAGE;
  }

  /** Every page from the first to the last starts at an item that exists. */
  lemma PagesStartInsideTheList(count: int, page: int)
    requires 1 <= page <= MaxPages(count)
    ensures 0 <= Start(page) < count
  {
    assert (page - 1) * ITEMS_PER_PAGE <= (MaxPages(count) - 1) * ITEMS_PER_PAGE;
  }

  /** A page after the last starts past the end of the list. */
  lemma PagesAfterTheLastAreEmpty(count: int, page: int)
    requires page > MaxPages(count)
    ensures Start(page) >= count
  {
    assert MaxPages(count) * ITEMS_PER_PAGE <= (page - 1) * ITEMS_PER_PAGE;
  }

  /** Java's string concatenation writes `null` for a missing text. */
  function Show(s: Option<string>): string {
    if s.Some? then s.value else "null"
  }

  /**
   * What the sender receives: the "none" error, the title bar, one line per
   * item, and the footer with the page number and the links that run
   * `command` for the previous and the next page.
   */
  datatype Message =
    | NoneError(text: string)
    | TitleBar(title: string)
    | ItemLine(line: string)
    | Footer(previous: Option<string>, page: int, maxPages: int, next: Option<string>)

  const SEPARATOR_WIDTH: int := 58

  /**
   * `createSeparatorString`'s dash count for a centred component whose
   * `toString()` has `textLength` characters: `(58 - textLength - 4) / 2`
   * with Java's division, which truncates toward zero. `"-".repeat` of a
   * negative count throws `IllegalArgumentException`.
   */
  function SeparatorLength(textLength: int): (r: int)
    ensures var d := SEPARATOR_WIDTH - textLength - 4;
            (d >= 0 ==> 2 * r <= d < 2 * r + 2) && (d < 0 ==> 2 * r - 2 < d <= 2 * r)
    ensures r < 0 <==> textLength >= SEPARATOR_WIDTH - 2
  {
    var d := SEPARATOR_WIDTH - textLength - 4;
    if d >= 0 then d / 2 else -((-d) / 2)
  }

  /** The command behind the link to `page`. */
  function PageCommand(command: Option<string>, page: int): string {
    Show(command) + " " + IntToString(page)
  }

  function ItemLines(lines: seq<string>): (r: seq<Message>)
    ensures |r| == |lines| && forall i :: 0 <= i < |lines| ==> r[i] == ItemLine(lines[i])
  {
    seq(|lines|, i requires 0 <= i < |lines| => ItemLine(lines[i]))
  }

  /** The footer of page `page`: a previous link iff `page > 1`, a next link iff `page < maxPages`. */
  function PageFooter(command: Option<string>, page: int, maxPages: int): (m: Message)
    ensures m.Footer? && m.page == page && m.maxPages == maxPages
    ensures m.previous.Some? <==> page > 1
    ensures m.next.Some? <==> page < maxPages
    ensures m.previous.Some? ==> m.previous.value == PageCommand(command, page - 1)
    ensures m.next.Some? ==> m.next.value == PageCommand(command, page + 1)
  {
    Footer(if page > 1 then Some(PageCommand(command, page - 1)) else None,
           page, maxPages,
           if page < maxPages then Some(PageCommand(command, page + 1)) else None)
  }

  /** A chat menu; the builder methods set one field each. A `None` sender or text is Java's `null`. */
  class ChatMenu {
    var sender: Option<Sender>
    var page: int
    var count: int
    var command: Option<string>
    var title: Option<string>
    var none: Option<string>

    /** `SCChatMenu(sender, page)` */
    constructor (sender: Option<Sender>, page: int)
      ensures this.sender == sender && this.page == page
      ensures count == 0 && command == None && title == None && none == Some("No items where found")
    {
      this.sender := sender;
      this.page := page;
      count := 0;
      command := None;
      title := None;
      none := Some("No items where found");
    }

    /**
     * `SCChatMenu(sender, page)` with the page as text: a text that is not a
     * number gives page 0. The sender given is never stored.
     */
    constructor FromText(sender: Option<Sender>, page: string, parseInt: string -> Option<int>)
      ensures this.sender == None
      ensures parseInt(page).Some? ==> this.page == parseInt(page).value
      ensures parseInt(page).None? ==> this.page == 0
      ensures count == 0 && command == None && title == None && none == Some("No items where found")
    {
      var parsed := parseInt(page);
      this.page := if parsed.Some? then parsed.value else 0;
      this.sender := None;
      count := 0;
      command := None;
      title := None;
      none := Some("No items where found");
    }

    /** The text-page constructor as it is evidently meant: it keeps the sender. */
    constructor FromTextKeepingSender(sender: Option<Sender>, page: string, parseInt: string -> Option<int>)
      ensures this.sender == sender
      ensures parseInt(page).Some? ==> this.page == parseInt(page).value
      ensures parseInt(page).None? ==> this.page == 0
      ensures count == 0 && command == None && title == None && none == Some("No items where found")
    {
      var parsed := parseInt(page);
      this.page := if parsed.Some? then parsed.value else 0;
      this.sender := sender;
      count := 0;
      command := None;
      title := None;
      none := Some("No items where found");
    }

    method Count(count: int) returns (r: ChatMenu)
      modifies this
      ensures r == this && this.count == count
      ensures sender == old(sender) && page == old(page) && command == old(command)
      ensures title == old(title) && none == old(none)
    {
      this.count := count;
      r := this;
    }

    method Command(command: Option<string>) returns (r: ChatMenu)
      modifies this
      ensures r == this && this.command == command
      ensures sender == old(sender) && page == old(page) && count == old(count)
      ensures title == old(title) && none == old(none)
    {
      this.command := command;
      r := this;
    }

    method Title(title: Option<string>) returns (r: ChatMenu)
      modifies this
      ensures r == this && this.title == title
      ensures sender == old(sender) && page == old(page) && count == old(count)
      ensures command == old(command) && none == old(none)
    {
      this.title := title;
      r := this;
    }

    /** `none(text)`: the error shown for an empty page. */
    method NoneMessage(none: Option<string>) returns (r: ChatMenu)
      modifies this
      ensures r == this && this.none == none
      ensures sender == old(sender) && page == old(page) && count == old(count)
      ensures command == old(command) && title == old(title)
    {
      this.none := none;
      r := this;
    }

    /**
     * `showItems(func)`: asks `func` for the lines of the page (from the page's
     * first index, at most eight). No lines: only the "none" error is sent.
     * Otherwise the title bar, the lines and the footer. A `null` title (the
     * default) is refused by the title bar's text component. Each bar is
     * centred by `createSeparatorString`, which throws for a component whose
     * text is too long; `textLength(m)` is the length of `toString()` of the
     * component bar `m` centres (Adventure's rendering is not modelled).
     * These arguments are evaluated before the title bar is sent, so a `null`
     * sender throws only after them.
     */
    method ShowItems(func: (int, int) -> seq<string>, textLength: Message -> int) returns (sent: seq<Message>, thrown: Option<string>)
      ensures var lines := func(Start(page), ITEMS_PER_PAGE);
              var footer := PageFooter(command, page, MaxPages(count));
              && (lines == [] && sender.None? ==> sent == [] && thrown == Some("NullPointerException"))
              && (lines == [] && sender.Some? ==> sent == [NoneError(Show(none))] && thrown == None)
              && (lines != [] && title.None? ==> sent == [] && thrown == Some("NullPointerException"))
              && (lines != [] && title.Some? && SeparatorLength(textLength(TitleBar(title.value))) < 0 ==>
                    sent == [] && thrown == Some("IllegalArgumentException"))
              && (lines != [] && title.Some? && SeparatorLength(textLength(TitleBar(title.value))) >= 0 && sender.None? ==>
                    sent == [] && thrown == Some("NullPointerException"))
              && (lines != [] && title.Some? && SeparatorLength(textLength(TitleBar(title.value))) >= 0 && sender.Some? ==>
                    (SeparatorLength(textLength(footer)) < 0 ==>
                          sent == [TitleBar(title.value)] + ItemLines(lines) && thrown == Some("IllegalArgumentException"))
                    && (SeparatorLength(textLength(footer)) >= 0 ==>
                          sent == [TitleBar(title.value)] + ItemLines(lines) + [footer] && thrown == None))
    {
      var start := Start(page);
      var maxPages := MaxPages(count);
      var lines := func(start, ITEMS_PER_PAGE);

      if lines == [] {
        if sender.None? {
          return [], Some("NullPointerException");
        }
        return [NoneError(Show(none))], None;
      }

      if title.None? {
        return [], Some("NullPointerException");
      }
      if SeparatorLength(textLength(TitleBar(title.value))) < 0 {
        return [], Some("IllegalArgumentException");
      }
      if sender.None? {
        return [], Some("NullPointerException");
      }
      sent := [TitleBar(title.value)];
      for i := 0 to |lines|
        invariant sent == [TitleBar(title.value)] + ItemLines(lines[..i])
      {
        sent := sent + [ItemLine(lines[i])];
      }
      assert lines[..|lines|] == lines;

      var previous: Option<string> := None;
      if page > 1 {
        previous := Some(PageCommand(command, page - 1));
      }
      var next: Option<string> := None;
      if page < maxPages {
        next := Some(PageCommand(command, page + 1));
      }
      var footer := Footer(previous, page, maxPages, next);
      if SeparatorLength(textLength(footer)) < 0 {
        return sent, Some("IllegalArgumentException");
      }
      sent := sent + [footer];
      thrown := None;
    }
  }

  /**
   * A menu built from a page text has lost its sender, so showing a page
   * throws even with a title set: `NullPointerException` for the missing
   * sender, unless the title bar's separator already fails.
   */
  method TextPageMenuThrows(sender: Sender, page: string, parseInt: string -> Option<int>,
                            title: string, func: (int, int) -> seq<string>, textLength: Message -> int)
    returns (thrown: Option<string>)
    ensures var start := if parseInt(page).Some? then Start(parseInt(page).value) else Start(0);
            thrown == if func(start, ITEMS_PER_PAGE) != [] && SeparatorLength(textLength(TitleBar(title))) < 0
                      then Some("IllegalArgumentException") else Some("NullPointerException")
  {
    var menu := new ChatMenu.FromText(Some(sender), page, parseInt);
    menu := menu.Title(Some(title));
    var sent;
    sent, thrown := menu.ShowItems(func, textLength);
  }

  /**
   * With the sender kept and a title set, the menu never throws
   * `NullPointerException`: it shows its page to that sender under that
   * title, unless a bar's text is too long to centre.
   */
  method TextPageMenuShows(sender: Sender, page: string, parseInt: string -> Option<int>,
                           title: string, func: (int, int) -> seq<string>, textLength: Message -> int)
    returns (sent: seq<Message>, thrown: Option<string>)
    ensures var p := if parseInt(page).Some? then parseInt(page).value else 0;
            var lines := func(Start(p), ITEMS_PER_PAGE);
            var footer := PageFooter(None, p, MaxPages(0));
            && (thrown.Some? ==> thrown == Some("IllegalArgumentException"))
            && (thrown == None <==> lines == [] || (SeparatorLength(textLength(TitleBar(title))) >= 0
                                                    && SeparatorLength(textLength(footer)) >= 0))
            && (lines != [] && SeparatorLength(textLength(TitleBar(title))) >= 0 ==> |sent| > 0 && sent[0] == TitleBar(title))
  {
    var menu := new ChatMenu.FromTextKeepingSender(Some(sender), page, parseInt);
    menu := menu.Title(Some(title));
    sent, thrown := menu.ShowItems(func, textLength);
  }
}
