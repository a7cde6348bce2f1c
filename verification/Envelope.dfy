/** Escaped context envelopes and the reader that gets the documents back
    (packages/promptguard/escape.go, envelope.go; entities of section 4.6 of XML 1.0). */
module Envelope {
  import opened Sequences
  import opened Wrappers
  import opened Text

  // ----- Escaping

  function EscapeChar(c: char, attr: bool): string {
    if c == '&' then "&amp;"
    else if c == '<' then "&lt;"
    else if c == '>' then "&gt;"
    else if attr && c == '"' then "&quot;"
    else if attr && c == '\'' then "&apos;"
    else [c]
  }

  // EscapeText, and with `attr` EscapeAttr: one pass, character by character.
  function Escape(s: string, attr: bool): string {
    if s == "" then "" else EscapeChar(s[0], attr) + Escape(s[1..], attr)
  }

  // The predefined entity a text starts with, and its length.
  function EntityAt(s: string): Option<(char, nat)> {
    if StartsWith(s, "&amp;") then Some(('&', 5))
    else if StartsWith(s, "&lt;") then Some(('<', 4))
    else if StartsWith(s, "&gt;") then Some(('>', 4))
    else if StartsWith(s, "&quot;") then Some(('"', 6))
    else if StartsWith(s, "&apos;") then Some(('\'', 6))
    else None
  }

  function Unescape(s: string): string {
    if s == "" then ""
    else
      match EntityAt(s)
      case Some((c, n)) => [c] + Unescape(s[n..])
      case None => [s[0]] + Unescape(s[1..])
  }

  lemma EntityOfChar(c: char, attr: bool, rest: string)
    ensures var e := EscapeChar(c, attr);
            EntityAt(e + rest) == if e == [c] then None else Some((c, |e|))
  {
    var e := EscapeChar(c, attr);
    var s := e + rest;
    assert s[..|e|] == e;
    if e == [c] {
      assert s[0] == c != '&';
    } else {
      assert s[1] == e[1] && s[2] == e[2];
    }
  }

  lemma {:induction false} UnescapeEscape(s: string, attr: bool)
    ensures Unescape(Escape(s, attr)) == s
  {
    if s != "" {
      var e, rest := EscapeChar(s[0], attr), Escape(s[1..], attr);
      EntityOfChar(s[0], attr, rest);
      UnescapeEscape(s[1..], attr);
      assert (e + rest)[|e|..] == rest;
      assert [s[0]] + s[1..] == s;
    }
  }

  predicate Harmless(s: string, attr: bool) {
    '<' !in s && '>' !in s && (attr ==> '"' !in s && '\'' !in s)
  }

  lemma EscapeCharFree(c: char, attr: bool)
    ensures Harmless(EscapeChar(c, attr), attr)
  {
  }

  // Escaped text opens and closes no tag, and an escaped attribute ends no quotation.
  lemma {:induction false} EscapeFree(s: string, attr: bool)
    ensures Harmless(Escape(s, attr), attr)
  {
    if s != "" {
      EscapeCharFree(s[0], attr);
      EscapeFree(s[1..], attr);
      HarmlessConcat(EscapeChar(s[0], attr), Escape(s[1..], attr), attr);
    }
  }

  lemma HarmlessConcat(a: string, b: string, attr: bool)
    requires Harmless(a, attr) && Harmless(b, attr)
    ensures Harmless(a + b, attr)
  {
  }

  // ----- Rendering

  datatype Provenance = Project | Parent

  datatype Source = Source(path: string, content: string, provenance: Provenance)

  datatype Document = Document(path: string, content: string)

  // The documents of one provenance, in their order.
  function Only(sources: seq<Source>, provenance: Provenance): seq<Document> {
    if sources == [] then []
    else
      var front, last := Only(sources[..|sources| - 1], provenance), sources[|sources| - 1];
      if last.provenance == provenance then front + [Document(last.path, last.content)] else front
  }

  // The opening tag and introduction of the two sections.
  datatype Headers = Headers(parent: string, project: string)

  const PARENT_NAME := "parent_context"
  const PROJECT_NAME := "project_context"

  const HEADERS := Headers(
    "<" + PARENT_NAME + " scope=\"context_files\" priority=\"parent_over_project\">\nParent rules have the highest precedence among loaded context files and cannot override the runtime trust boundary or expand authorization.\n\n",
    "<" + PROJECT_NAME + ">\nProject instructions, subordinate to parent context and the trust boundary:\n\n")

  const PARENT_CLOSE := "</parent_context>"
  const PROJECT_CLOSE := "</project_context>"
  const PARENT_TAG := "parent_instructions"
  const PROJECT_TAG := "project_instructions"

  function OpenTag(tag: string): string {
    "<" + tag + " path=\""
  }

  function EndTag(tag: string): string {
    "/" + tag + ">\n\n"
  }

  function Envelope1(tag: string, d: Document): string {
    (OpenTag(tag) + Escape(d.path, true) + "\">\n") + Escape(d.content, false) + ("\n<" + EndTag(tag))
  }

  function Envelopes(tag: string, docs: seq<Document>): string {
    if docs == [] then "" else Envelope1(tag, docs[0]) + Envelopes(tag, docs[1..])
  }

  function Section(header: string, tag: string, docs: seq<Document>, close: string): string {
    header + (Envelopes(tag, docs) + close)
  }

  function Rendered(h: Headers, parents: seq<Document>, projects: seq<Document>): string {
    var first := if parents == [] then "" else Section(h.parent, PARENT_TAG, parents, PARENT_CLOSE);
    if projects == [] then first
    else (if first == "" then "" else first + "\n\n") + Section(h.project, PROJECT_TAG, projects, PROJECT_CLOSE)
  }

  method WriteEnvelope(b: string, tag: string, d: Document) returns (r: string)
    ensures r == b + Envelope1(tag, d)
  {
    var head, body, tail := OpenTag(tag) + Escape(d.path, true) + "\">\n", Escape(d.content, false), "\n<" + EndTag(tag);
    r := b + head;
    r := r + body;
    r := r + tail;
    ConcatAssoc(b, head, body);
    ConcatAssoc(b, head + body, tail);
  }

  method WriteEnvelopes(b: string, tag: string, docs: seq<Document>) returns (r: string)
    ensures r == b + Envelopes(tag, docs)
  {
    r := b;
    for k := 0 to |docs|
      invariant r + Envelopes(tag, docs[k..]) == b + Envelopes(tag, docs)
    {
      ghost var before := r;
      r := WriteEnvelope(r, tag, docs[k]);
      ConcatAssoc(before, Envelope1(tag, docs[k]), Envelopes(tag, docs[k + 1..]));
      assert docs[k..][1..] == docs[k + 1..];
    }
  }

  // The stable partition RenderContext builds first.
  method Partition(sources: seq<Source>) returns (parent: seq<Document>, project: seq<Document>)
    ensures parent == Only(sources, Parent) && project == Only(sources, Project)
  {
    parent, project := [], [];
    for k := 0 to |sources|
      invariant parent == Only(sources[..k], Parent) && project == Only(sources[..k], Project)
    {
      assert sources[..k + 1][..k] == sources[..k];
      var d := Document(sources[k].path, sources[k].content);
      if sources[k].provenance == Parent {
        parent := parent + [d];
      } else {
        project := project + [d];
      }
    }
    assert sources[..|sources|] == sources;
  }

  // Whatever the documents hold, the reader gets both groups back in their order.
  method RenderWith(h: Headers, sources: seq<Source>) returns (b: string)
    requires Distinguishable(h)
    ensures b == Rendered(h, Only(sources, Parent), Only(sources, Project))
    ensures Read(h, b) == Some((Only(sources, Parent), Only(sources, Project)))
  {
    var parent, project := Partition(sources);
    ReaderRecovers(h, parent, project);
    b := "";
    if |parent| > 0 {
      b := WriteEnvelopes(h.parent, PARENT_TAG, parent);
      ConcatAssoc(h.parent, Envelopes(PARENT_TAG, parent), PARENT_CLOSE);
      b := b + PARENT_CLOSE;
    }
    if |project| > 0 {
      if |b| > 0 {
        b := b + "\n\n";
      }
      ghost var before := b;
      b := WriteEnvelopes(b + h.project, PROJECT_TAG, project);
      ConcatAssoc(before, h.project, Envelopes(PROJECT_TAG, project));
      ConcatAssoc(before, h.project + Envelopes(PROJECT_TAG, project), PROJECT_CLOSE);
      ConcatAssoc(h.project, Envelopes(PROJECT_TAG, project), PROJECT_CLOSE);
      b := b + PROJECT_CLOSE;
    }
  }

  // A reader can tell which section it looks at.
  ghost predicate Distinguishable(h: Headers) {
    exists i | 0 <= i < |h.parent| && i < |h.project| :: h.parent[i] != h.project[i]
  }

  // RenderContext with its own headers.
  method RenderContext(sources: seq<Source>) returns (b: string)
    ensures Read(HEADERS, b) == Some((Only(sources, Parent), Only(sources, Project)))
  {
    assert HEADERS.parent[2] == PARENT_NAME[1] && HEADERS.project[2] == PROJECT_NAME[1];
    b := RenderWith(HEADERS, sources);
  }

  // ----- Reading

  function StripPrefix(s: string, prefix: string): Option<string> {
    if StartsWith(s, prefix) then Some(s[|prefix|..]) else None
  }

  // What precedes the first occurrence of a character, and what follows it.
  function ReadUntil(s: string, c: char): (r: Option<(string, string)>)
    ensures r.Some? ==> |r.value.1| < |s|
  {
    if s == "" then None
    else if s[0] == c then Some(("", s[1..]))
    else
      match ReadUntil(s[1..], c)
      case None => None
      case Some((before, after)) => Some(([s[0]] + before, after))
  }

  // One document after its opening tag.
  function ReadDocument(s: string, tag: string): (r: Option<(Document, string)>)
    ensures r.Some? ==> |r.value.1| < |s|
  {
    match ReadUntil(s, '"')
    case None => None
    case Some((path, s1)) =>
      match StripPrefix(s1, ">\n")
      case None => None
      case Some(s2) =>
        match ReadUntil(s2, '<')
        case None => None
        case Some((content, s3)) =>
          if content == "" || content[|content| - 1] != '\n' then None
          else
            match StripPrefix(s3, EndTag(tag))
            case None => None
            case Some(rest) => Some((Document(Unescape(path), Unescape(content[..|content| - 1])), rest))
  }

  function ReadDocuments(s: string, tag: string): Option<(seq<Document>, string)>
    decreases |s|
  {
    match StripPrefix(s, OpenTag(tag))
    case None => Some(([], s))
    case Some(s1) =>
      match ReadDocument(s1, tag)
      case None => None
      case Some((d, s2)) =>
        match ReadDocuments(s2, tag)
        case None => None
        case Some((docs, rest)) => Some(([d] + docs, rest))
  }

  // A section after its header: its documents, and what follows its closing tag.
  function ReadSection(s: string, tag: string, close: string): Option<(seq<Document>, string)> {
    match ReadDocuments(s, tag)
    case None => None
    case Some((docs, s1)) =>
      match StripPrefix(s1, close)
      case None => None
      case Some(rest) => Some((docs, rest))
  }

  function ReadProjects(h: Headers, s: string): Option<seq<Document>> {
    match StripPrefix(s, h.project)
    case None => None
    case Some(s1) =>
      match ReadSection(s1, PROJECT_TAG, PROJECT_CLOSE)
      case None => None
      case Some((docs, rest)) => if rest == "" then Some(docs) else None
  }

  // A whole context: an optional parent section, then an optional project section.
  function Read(h: Headers, s: string): Option<(seq<Document>, seq<Document>)> {
    if s == "" then Some(([], []))
    else
      match StripPrefix(s, h.parent)
      case None =>
        (match ReadProjects(h, s)
         case None => None
         case Some(projects) => Some(([], projects)))
      case Some(s1) =>
        match ReadSection(s1, PARENT_TAG, PARENT_CLOSE)
        case None => None
        case Some((parents, rest)) =>
          if rest == "" then Some((parents, []))
          else
            match StripPrefix(rest, "\n\n")
            case None => None
            case Some(s2) =>
              match ReadProjects(h, s2)
              case None => None
              case Some(projects) => Some((parents, projects))
  }

  lemma StripAdded(prefix: string, s: string)
    ensures StripPrefix(prefix + s, prefix) == Some(s)
  {
    assert (prefix + s)[..|prefix|] == prefix && (prefix + s)[|prefix|..] == s;
  }

  lemma {:induction false} ReadUntilFirst(before: string, c: char, after: string)
    requires c !in before
    ensures ReadUntil(before + ([c] + after), c) == Some((before, after))
  {
    var s := before + ([c] + after);
    if before == "" {
      assert s == [c] + after;
    } else {
      ReadUntilFirst(before[1..], c, after);
      assert s[1..] == before[1..] + ([c] + after);
      assert [before[0]] + before[1..] == before;
    }
  }

  lemma SplitEnvelope(open: string, path: string, content: string, end: string, rest: string)
    ensures ((open + path + "\">\n") + content + ("\n<" + end)) + rest ==
            open + (path + ("\"" + (">\n" + ((content + "\n") + ("<" + (end + rest))))))
  {
    assert "\">\n" == "\"" + ">\n" && "\n<" == "\n" + "<";
  }

  lemma ReadOne(tag: string, d: Document, rest: string)
    ensures StripPrefix(Envelope1(tag, d) + rest, OpenTag(tag)).Some?
    ensures ReadDocument(StripPrefix(Envelope1(tag, d) + rest, OpenTag(tag)).value, tag) == Some((d, rest))
  {
    var path, content := Escape(d.path, true), Escape(d.content, false) + "\n";
    var s3 := EndTag(tag) + rest;
    var s2 := content + ("<" + s3);
    var s1 := ">\n" + s2;
    var s0 := path + ("\"" + s1);
    SplitEnvelope(OpenTag(tag), path, Escape(d.content, false), EndTag(tag), rest);
    assert Envelope1(tag, d) + rest == OpenTag(tag) + s0;
    StripAdded(OpenTag(tag), s0);
    EscapeFree(d.path, true);
    ReadUntilFirst(path, '"', s1);
    StripAdded(">\n", s2);
    EscapeFree(d.content, false);
    ReadUntilFirst(content, '<', s3);
    StripAdded(EndTag(tag), rest);
    UnescapeEscape(d.path, true);
    UnescapeEscape(d.content, false);
    assert content[..|content| - 1] == Escape(d.content, false);
  }

  lemma {:induction false} ReadAll(tag: string, docs: seq<Document>, rest: string)
    requires StripPrefix(rest, OpenTag(tag)).None?
    ensures ReadDocuments(Envelopes(tag, docs) + rest, tag) == Some((docs, rest))
  {
    if docs == [] {
      assert "" + rest == rest;
    } else {
      var more := Envelopes(tag, docs[1..]) + rest;
      assert Envelopes(tag, docs) + rest == Envelope1(tag, docs[0]) + more;
      ReadOne(tag, docs[0], more);
      ReadAll(tag, docs[1..], rest);
      assert [docs[0]] + docs[1..] == docs;
    }
  }

  lemma DiffersAt(s: string, prefix: string, i: nat)
    requires i < |s| && i < |prefix| && s[i] != prefix[i]
    ensures !StartsWith(s, prefix)
  {
    assert |prefix| <= |s| ==> s[..|prefix|][i] == s[i];
  }

  lemma ReadClosed(tag: string, docs: seq<Document>, close: string, rest: string)
    requires |close| > 1 && close[1] == '/' && tag != "" && tag[0] != '/'
    ensures ReadSection(Envelopes(tag, docs) + (close + rest), tag, close) == Some((docs, rest))
  {
    var after := close + rest;
    DiffersAt(after, OpenTag(tag), 1);
    ReadAll(tag, docs, after);
    StripAdded(close, rest);
  }

  // A section read back from its start.
  lemma SectionRead(header: string, tag: string, docs: seq<Document>, close: string, rest: string)
    requires |close| > 1 && close[1] == '/' && tag != "" && tag[0] != '/'
    ensures StripPrefix(Section(header, tag, docs, close) + rest, header).Some?
    ensures ReadSection(StripPrefix(Section(header, tag, docs, close) + rest, header).value, tag, close) == Some((docs, rest))
  {
    ConcatAssoc(header, Envelopes(tag, docs) + close, rest);
    ConcatAssoc(Envelopes(tag, docs), close, rest);
    StripAdded(header, Envelopes(tag, docs) + (close + rest));
    ReadClosed(tag, docs, close, rest);
  }

  lemma ProjectsRead(h: Headers, projects: seq<Document>)
    ensures ReadProjects(h, Section(h.project, PROJECT_TAG, projects, PROJECT_CLOSE)) == Some(projects)
  {
    var section := Section(h.project, PROJECT_TAG, projects, PROJECT_CLOSE);
    SectionRead(h.project, PROJECT_TAG, projects, PROJECT_CLOSE, "");
    assert section + "" == section;
  }

  lemma ReadProjectsOnly(h: Headers, projects: seq<Document>)
    requires Distinguishable(h) && projects != []
    ensures Read(h, Section(h.project, PROJECT_TAG, projects, PROJECT_CLOSE)) == Some(([], projects))
  {
    var section := Section(h.project, PROJECT_TAG, projects, PROJECT_CLOSE);
    ProjectsRead(h, projects);
    var i :| 0 <= i < |h.parent| && i < |h.project| && h.parent[i] != h.project[i];
    assert section[i] == h.project[i];
    DiffersAt(section, h.parent, i);
  }

  lemma ReadParentsOnly(h: Headers, parents: seq<Document>)
    requires parents != []
    ensures Read(h, Section(h.parent, PARENT_TAG, parents, PARENT_CLOSE)) == Some((parents, []))
  {
    var first := Section(h.parent, PARENT_TAG, parents, PARENT_CLOSE);
    SectionRead(h.parent, PARENT_TAG, parents, PARENT_CLOSE, "");
    assert first + "" == first && first != "";
  }

  lemma ReadBoth(h: Headers, parents: seq<Document>, projects: seq<Document>)
    requires parents != []
    ensures var section := Section(h.project, PROJECT_TAG, projects, PROJECT_CLOSE);
            Read(h, Section(h.parent, PARENT_TAG, parents, PARENT_CLOSE) + ("\n\n" + section)) == Some((parents, projects))
  {
    var section := Section(h.project, PROJECT_TAG, projects, PROJECT_CLOSE);
    SectionRead(h.parent, PARENT_TAG, parents, PARENT_CLOSE, "\n\n" + section);
    StripAdded("\n\n", section);
    ProjectsRead(h, projects);
  }

  // Reading what was rendered gives the parent and the project documents, each in order.
  lemma {:induction false} ReaderRecovers(h: Headers, parents: seq<Document>, projects: seq<Document>)
    requires Distinguishable(h)
    ensures Read(h, Rendered(h, parents, projects)) == Some((parents, projects))
  {
    var first := Section(h.parent, PARENT_TAG, parents, PARENT_CLOSE);
    var section := Section(h.project, PROJECT_TAG, projects, PROJECT_CLOSE);
    if parents == [] {
      if projects != [] {
        ReadProjectsOnly(h, projects);
        assert "" + section == section;
      }
    } else if projects == [] {
      ReadParentsOnly(h, parents);
    } else {
      ReadBoth(h, parents, projects);
      assert |first| >= |PARENT_CLOSE| > 0;
      ConcatAssoc(first, "\n\n", section);
    }
  }
}
