/** The daily poll digest: the accumulated entries and the HTML message that
    lists them. */
module PollDigest {
  import opened JsString

  /** `poll.type`: 'regular', 'quiz', or anything else. */
  datatype PollType = Regular | Quiz | OtherType

  /** One digest line: the poll message's id and its question's first line. */
  datatype Entry = Entry(id: nat, text: string)

  /** The accumulator `{survey, quiz}`, each list in arrival order. */
  datatype Digest = Digest(survey: seq<Entry>, quiz: seq<Entry>)

  function ChatLink(username: string): string
  {
    "https://t.me/" + username
  }

  /** `<a href="${chatLink}/${id}">${text}</a>`. */
  function Link(chatLink: string, e: Entry): string
  {
    "<a href=\"" + chatLink + "/" + DecimalString(e.id) + "\">" + e.text + "</a>"
  }

  /** `entries.map(link)`: one link per entry, in the same order. */
  function Links(chatLink: string, entries: seq<Entry>): (links: seq<string>)
    ensures |links| == |entries|
    ensures forall i :: 0 <= i < |entries| ==> links[i] == Link(chatLink, entries[i])
  {
    if entries == [] then [] else [Link(chatLink, entries[0])] + Links(chatLink, entries[1..])
  }

  /** `a + "\n" + b`. */
  function Glue(a: string, b: string): string
  {
    a + "\n" + b
  }

  /** The digest message, the template
      `<strong>${date}</strong>\n\nQuiz\n${quiz links}\n\nSurvey\n${survey links}\n`
      written as its lines glued by newlines: the date header, every quiz link,
      then every survey link, each list joined by newlines. */
  function Render(header: string, chatLink: string, d: Digest): string
  {
    Glue("<strong>" + header + "</strong>",
      Glue("",
        Glue("Quiz",
          Glue(Join(Links(chatLink, d.quiz), '\n'),
            Glue("",
              Glue("Survey",
                Glue(Join(Links(chatLink, d.survey), '\n'), "")))))))
  }

  /** The lines a joined list occupies: an empty list still leaves one empty line. */
  function Lines(items: seq<string>): seq<string>
  {
    if items == [] then [""] else items
  }

  predicate SingleLine(s: string)
  {
    '\n' !in s
  }

  predicate EntriesSingleLine(entries: seq<Entry>)
  {
    forall i :: 0 <= i < |entries| ==> SingleLine(entries[i].text)
  }

  lemma LinkSingleLine(chatLink: string, e: Entry)
    requires SingleLine(chatLink) && SingleLine(e.text)
    ensures SingleLine(Link(chatLink, e))
  {
    var digits := DecimalString(e.id);
    assert forall i :: 0 <= i < |digits| ==> digits[i] != '\n';
  }

  /** A joined list of single-line links splits back into exactly those links. */
  lemma JoinedLinks(chatLink: string, entries: seq<Entry>)
    requires SingleLine(chatLink) && EntriesSingleLine(entries)
    ensures Split(Join(Links(chatLink, entries), '\n'), '\n') == Lines(Links(chatLink, entries))
  {
    var links := Links(chatLink, entries);
    forall i | 0 <= i < |links|
      ensures '\n' !in links[i]
    {
      LinkSingleLine(chatLink, entries[i]);
    }
    if links != [] {
      SplitJoin(links, '\n');
    }
  }

  /** Gluing on a single line adds exactly that line in front. */
  lemma SplitGlueLine(a: string, b: string)
    requires SingleLine(a)
    ensures Split(Glue(a, b), '\n') == [a] + Split(b, '\n')
  {
    SplitWithout(a, '\n');
    SplitAround(a, b, '\n');
  }

  /** Gluing on a joined list of links adds its lines in front. */
  lemma SplitGlueLinks(chatLink: string, entries: seq<Entry>, b: string)
    requires SingleLine(chatLink) && EntriesSingleLine(entries)
    ensures Split(Glue(Join(Links(chatLink, entries), '\n'), b), '\n')
      == Lines(Links(chatLink, entries)) + Split(b, '\n')
  {
    JoinedLinks(chatLink, entries);
    SplitAround(Join(Links(chatLink, entries), '\n'), b, '\n');
  }

  /** The lines of a section: an empty line, its title, its links. */
  lemma SectionLines(title: string, chatLink: string, entries: seq<Entry>, rest: string)
    requires SingleLine(title) && SingleLine(chatLink) && EntriesSingleLine(entries)
    ensures Split(Glue("", Glue(title, Glue(Join(Links(chatLink, entries), '\n'), rest))), '\n')
      == ["", title] + (Lines(Links(chatLink, entries)) + Split(rest, '\n'))
  {
    var t3 := Glue(Join(Links(chatLink, entries), '\n'), rest);
    SplitGlueLinks(chatLink, entries, rest);
    SplitGlueLine(title, t3);
    SplitGlueLine("", Glue(title, t3));
  }

  /** Line by line, the digest is the header, an empty line, "Quiz", one line
      per quiz entry in order, an empty line, "Survey", one line per survey
      entry in order, and a final empty line (an empty list leaves one empty
      line in its place). */
  lemma {:induction false} RenderLines(header: string, chatLink: string, d: Digest)
    requires SingleLine(header) && SingleLine(chatLink)
    requires EntriesSingleLine(d.quiz) && EntriesSingleLine(d.survey)
    ensures Split(Render(header, chatLink, d), '\n') ==
      ["<strong>" + header + "</strong>", "", "Quiz"] + (Lines(Links(chatLink, d.quiz))
      + (["", "Survey"] + (Lines(Links(chatLink, d.survey)) + [""])))
  {
    var h := "<strong>" + header + "</strong>";
    var survey := Glue("", Glue("Survey", Glue(Join(Links(chatLink, d.survey), '\n'), "")));
    var quiz := Glue("", Glue("Quiz", Glue(Join(Links(chatLink, d.quiz), '\n'), survey)));
    SplitWithout("", '\n');
    SectionLines("Survey", chatLink, d.survey, "");
    SectionLines("Quiz", chatLink, d.quiz, survey);
    assert '\n' !in h;
    SplitGlueLine(h, quiz);
    assert Render(header, chatLink, d) == Glue(h, quiz);
  }
}
