/**
 * Cutting XML into tags and the text behind each (packages/decode-ios/src/plist.ts): tokens written out are read back,
 * whatever attributes their tags have.
 */
module XmlTokens {
  import opened Options
  import opened Text

  datatype Kind = Open | Close | Self

  /** A tag and the text behind it. */
  datatype Tok = Tok(name: string, kind: Kind, text: string)

  /** Where `c` first is; the length if nowhere. */
  function Find(s: string, c: char): (i: nat)
    ensures i <= |s|
    ensures forall j :: 0 <= j < i ==> s[j] != c
    ensures i < |s| ==> s[i] == c
  {
    if s == [] || s[0] == c then 0 else 1 + Find(s[1..], c)
  }

  /** Where `part` first is. None if nowhere. */
  function FindPart(s: string, part: string): (r: Option<nat>)
    ensures r.Some? ==> r.value + |part| <= |s|
  {
    if StartsWith(s, part) then Some(0)
    else if s == [] then None
    else
      match FindPart(s[1..], part)
      case None => None
      case Some(i) => Some(i + 1)
  }

  /** What follows `part`; nothing if it is nowhere. */
  function Past(s: string, part: string): (r: string)
    ensures |r| <= |s|
    ensures part != "" && s != [] ==> |r| < |s|
  {
    match FindPart(s, part)
    case None => ""
    case Some(i) => s[i + |part|..]
  }

  /** What precedes it; all of `s` if it is nowhere. */
  function UpTo(s: string, part: string): string {
    match FindPart(s, part)
    case None => s
    case Some(i) => s[..i]
  }

  predicate IsSpace(c: char) {
    ('\t' <= c <= '\r') || c == ' ' || c == '\U{A0}' || c == '\U{1680}' || ('\U{2000}' <= c <= '\U{200A}')
    || c == '\U{2028}' || c == '\U{2029}' || c == '\U{202F}' || c == '\U{205F}' || c == '\U{3000}' || c == '\U{FEFF}'
  }

  function TrimStart(s: string): string {
    if s != [] && IsSpace(s[0]) then TrimStart(s[1..]) else s
  }

  function TrimEnd(s: string): string {
    if s != [] && IsSpace(s[|s| - 1]) then TrimEnd(s[..|s| - 1]) else s
  }

  /** What precedes the first space or `>`. */
  function FirstWord(s: string): string {
    if s == [] || IsSpace(s[0]) || s[0] == '>' then "" else [s[0]] + FirstWord(s[1..])
  }

  /** A letter in lower case; letters past ASCII are not modelled. */
  function Lower(s: string): string {
    if s == [] then ""
    else [if 'A' <= s[0] <= 'Z' then ((s[0] as int) + 32) as char else s[0]] + Lower(s[1..])
  }

  /** The tag between its angle brackets. */
  function TagOf(raw: string, text: string): (t: Tok)
    ensures t.text == text
  {
    var close := StartsWith(raw, "/");
    var self := !close && raw != [] && raw[|raw| - 1] == '/';
    var inner := if close then raw[1..] else raw;
    var bare := if inner != [] && inner[|inner| - 1] == '/' then inner[..|inner| - 1] else inner;
    Tok(Lower(FirstWord(TrimEnd(TrimStart(bare)))), if close then Close else if self then Self else Open, text)
  }

  /** The text before the first tag, and the tags. Text behind the last `<` counts for nothing. */
  datatype Scanned = Scanned(text: string, toks: seq<Tok>)

  function Behind(text: string, s: Scanned): Scanned {
    Scanned(text + s.text, s.toks)
  }

  function Scan(s: string): (r: Scanned)
    decreases |s|, 1
  {
    var lt := Find(s, '<');
    if lt == |s| then Scanned("", []) else Behind(s[..lt], Markup(s[lt..]))
  }

  /** What a `<` begins: a comment, CDATA, a declaration or a tag. */
  function Markup(s: string): (r: Scanned)
    requires s != "" && s[0] == '<'
    decreases |s|, 0
  {
    if StartsWith(s, "<!--") then Scan(Past(s, "-->"))
    else if StartsWith(s, "<![CDATA[") then Behind(UpTo(s[9..], "]]>"), Scan(Past(s[9..], "]]>")))
    else if StartsWith(s, "<?") || StartsWith(s, "<!") then Scan(Past(s, ">"))
    else
      var gt := Find(s, '>');
      if gt == |s| then Scanned("", [])
      else
        var rest := Scan(s[gt + 1..]);
        Scanned("", [TagOf(s[1..gt], rest.text)] + rest.toks)
  }

  // Writing tokens.

  /** What may follow a tag: text, CDATA, a comment, or a declaration or instruction up to its `>`. */
  datatype Piece = Plain(s: string) | Cdata(s: string) | Comment(s: string) | Declaration(s: string)

  /** A tag as it is written, its name in lower case but for `caps`, and what follows it. */
  datatype Tag = Tag(kind: Kind, name: string, caps: seq<bool>, attributes: string, behind: seq<Piece>)

  function WritePiece(p: Piece): string {
    match p
    case Plain(s) => s
    case Cdata(s) => "<![CDATA[" + s + "]]>"
    case Comment(s) => "<!--" + s + "-->"
    case Declaration(s) => s + ">"
  }

  function WritePieces(ps: seq<Piece>): string {
    if ps == [] then "" else WritePiece(ps[0]) + WritePieces(ps[1..])
  }

  /** What a piece adds to the text. */
  function PieceText(p: Piece): string {
    if p.Plain? || p.Cdata? then p.s else ""
  }

  function TextOf(ps: seq<Piece>): string {
    if ps == [] then "" else PieceText(ps[0]) + TextOf(ps[1..])
  }

  /** Whether `part` written behind `s` is the first there is. */
  predicate Ends(s: string, part: string) {
    FindPart(s + part, part) == Some(|s|)
  }

  predicate PieceOk(p: Piece) {
    match p
    case Plain(s) => '<' !in s
    case Cdata(s) => Ends(s, "]]>")
    case Comment(s) => Ends("<!--" + s, "-->")
    case Declaration(s) =>
      (StartsWith(s, "<?") || StartsWith(s, "<!")) && !StartsWith(s, "<!--") && !StartsWith(s, "<![CDATA[") && Ends(s, ">")
  }

  predicate PiecesOk(ps: seq<Piece>) {
    forall i :: 0 <= i < |ps| ==> PieceOk(ps[i])
  }

  /** Text alone at a document's end is dropped. */
  predicate Closed(ps: seq<Piece>) {
    ps == [] || !ps[|ps| - 1].Plain?
  }

  /** Tabs, line breaks and every other white space there is. */
  const SPACES: string :=
    "\t\n\U{0B}\U{0C}\r \U{A0}\U{1680}\U{2000}\U{2001}\U{2002}\U{2003}\U{2004}\U{2005}\U{2006}\U{2007}\U{2008}\U{2009}\U{200A}"
    + "\U{2028}\U{2029}\U{202F}\U{205F}\U{3000}\U{FEFF}"

  /** No space, bracket or slash in it, and not how a declaration or instruction begins. */
  predicate NameOk(name: string) {
    name != "" && name[0] != '!' && name[0] != '?' && IsWord(name)
  }

  predicate IsWord(s: string) {
    forall i :: 0 <= i < |s| ==> s[i] !in SPACES && s[i] != '>' && s[i] != '/'
  }

  predicate NoCapitals(s: string) {
    forall i :: 0 <= i < |s| ==> !('A' <= s[i] <= 'Z')
  }

  /** A name with some of its letters written as capitals. */
  function Cased(name: string, caps: seq<bool>): (r: string)
    ensures |r| == |name|
  {
    seq(|name|, i requires 0 <= i < |name| =>
      if i < |caps| && caps[i] && 'a' <= name[i] <= 'z' then ((name[i] as int) - 32) as char else name[i])
  }

  /** Attributes follow a space, hold no `>` and do not end in a slash. */
  predicate AttributesOk(a: string) {
    a == "" || (a[0] in SPACES && '>' !in a && a[|a| - 1] != '/')
  }

  predicate TagOk(w: Tag) {
    NameOk(w.name) && NoCapitals(w.name) && AttributesOk(w.attributes) && PiecesOk(w.behind)
  }

  predicate TagsOk(ws: seq<Tag>) {
    (forall i :: 0 <= i < |ws| ==> TagOk(ws[i])) && (ws != [] ==> Closed(ws[|ws| - 1].behind))
  }

  /** What is between a tag's angle brackets. */
  function Raw(w: Tag): string {
    match w.kind
    case Open => Cased(w.name, w.caps) + w.attributes
    case Close => "/" + Cased(w.name, w.caps) + w.attributes
    case Self => Cased(w.name, w.caps) + w.attributes + "/"
  }

  function Write(w: Tag): string {
    "<" + Raw(w) + ">" + WritePieces(w.behind)
  }

  function WriteAll(ws: seq<Tag>): string {
    if ws == [] then "" else Write(ws[0]) + WriteAll(ws[1..])
  }

  /** The token a written tag is. */
  function TokOf(w: Tag): Tok {
    Tok(w.name, w.kind, TextOf(w.behind))
  }

  function Toks(ws: seq<Tag>): (ts: seq<Tok>)
    ensures |ts| == |ws|
  {
    if ws == [] then [] else [TokOf(ws[0])] + Toks(ws[1..])
  }

  lemma LettersOk(name: string)
    requires name != "" && forall i :: 0 <= i < |name| ==> 'a' <= name[i] <= 'z'
    ensures NameOk(name) && NoCapitals(name) && Cased(name, []) == name
  {
  }

  // Tags.

  lemma SpacesAre()
    ensures forall c :: IsSpace(c) <==> c in SPACES
  {
    forall c
      ensures IsSpace(c) <==> c in SPACES
    {
      SpaceIs(c);
    }
  }

  lemma SpaceIs(c: char)
    ensures IsSpace(c) <==> c in SPACES
  {
    SpaceAt(c);
    if c in SPACES {
      EachSpace();
    }
  }

  lemma EachSpace()
    ensures forall i :: 0 <= i < |SPACES| ==> IsSpace(SPACES[i])
  {
  }

  lemma SpaceAt(c: char)
    ensures IsSpace(c) ==> c in SPACES
  {
    var n := c as int;
    if 9 <= n <= 13 {
      assert SPACES[n - 9] == c;
    } else if n == 0x20 {
      assert SPACES[5] == c;
    } else if n == 0xA0 {
      assert SPACES[6] == c;
    } else if n == 0x1680 {
      assert SPACES[7] == c;
    } else if 0x2000 <= n <= 0x200A {
      assert SPACES[n - 0x2000 + 8] == c;
    } else if 0x2028 <= n <= 0x2029 {
      assert SPACES[n - 0x2028 + 19] == c;
    } else if n == 0x202F {
      assert SPACES[21] == c;
    } else if n == 0x205F {
      assert SPACES[22] == c;
    } else if n == 0x3000 {
      assert SPACES[23] == c;
    } else if n == 0xFEFF {
      assert SPACES[24] == c;
    }
  }

  lemma CasedOk(name: string, caps: seq<bool>)
    requires NameOk(name) && NoCapitals(name)
    ensures NameOk(Cased(name, caps)) && Lower(Cased(name, caps)) == name
  {
    LowerCased(name, caps);
    hide Lower;
    forall i | 0 <= i < |name|
      ensures Cased(name, caps)[i] !in SPACES
    {
      SpaceIs(name[i]);
      SpaceIs(Cased(name, caps)[i]);
    }
  }

  /** In lower case again. */
  lemma {:induction false} LowerCased(name: string, caps: seq<bool>)
    requires NoCapitals(name)
    ensures Lower(Cased(name, caps)) == name
    decreases |name|
  {
    if name == "" {
    } else {
      var rest := if caps == [] then [] else caps[1..];
      LowerCased(name[1..], rest);
      assert Cased(name, caps)[1..] == Cased(name[1..], rest);
      assert name == [name[0]] + name[1..];
    }
  }

  lemma {:induction false} WordOfName(name: string, after: string)
    requires IsWord(name)
    requires after == "" || after[0] in SPACES
    ensures FirstWord(name + after) == name
  {
    SpacesAre();
    hide IsSpace;
    if name == [] {
      assert name + after == after;
    } else {
      assert (name + after)[1..] == name[1..] + after;
      WordOfName(name[1..], after);
    }
  }

  /** Trimming the end of a name and what follows it leaves the name. */
  lemma {:induction false} TrimmedName(name: string, after: string) returns (left: string)
    requires NameOk(name) && (after == "" || after[0] in SPACES)
    ensures TrimEnd(name + after) == name + left && (left == "" || left[0] in SPACES)
    decreases |after|
  {
    SpacesAre();
    hide IsSpace;
    left := after;
    if after == "" {
      assert name + after == name;
    } else if IsSpace(after[|after| - 1]) {
      assert (name + after)[..|name + after| - 1] == name + after[..|after| - 1];
      left := TrimmedName(name, after[..|after| - 1]);
    }
  }

  lemma NameOfTag(name: string, after: string)
    requires NameOk(name) && (after == "" || after[0] in SPACES)
    ensures FirstWord(TrimEnd(TrimStart(name + after))) == name
  {
    SpacesAre();
    hide IsSpace;
    assert (name + after)[0] == name[0];
    var left := TrimmedName(name, after);
    WordOfName(name, left);
  }

  lemma TagOfRaw(w: Tag, text: string)
    requires NameOk(w.name) && NoCapitals(w.name) && AttributesOk(w.attributes)
    ensures TagOf(Raw(w), text) == Tok(w.name, w.kind, text)
  {
    hide FirstWord, TrimEnd, TrimStart, Lower, Cased, TagOf, NameOk;
    var name := Cased(w.name, w.caps);
    CasedOk(w.name, w.caps);
    TagOfBare(name, w.attributes, text);
  }

  lemma TagOfBare(name: string, attributes: string, text: string)
    requires NameOk(name) && AttributesOk(attributes)
    ensures TagOf(name + attributes, text) == Tok(Lower(name), Open, text)
    ensures TagOf("/" + name + attributes, text) == Tok(Lower(name), Close, text)
    ensures TagOf(name + attributes + "/", text) == Tok(Lower(name), Self, text)
  {
    hide FirstWord, TrimEnd, TrimStart, Lower;
    var bare := name + attributes;
    NameOfTag(name, attributes);
    assert bare[0] == name[0];
    assert bare[|bare| - 1] == if attributes == "" then name[|name| - 1] else attributes[|attributes| - 1];
    hide AttributesOk, NameOk, IsWord;
    TagOfParts(bare, text);
    assert "/" + name + attributes == "/" + bare;
  }

  /** Slashes aside, what is between a tag's brackets begins with its name. */
  lemma TagOfParts(bare: string, text: string)
    requires bare != "" && bare[0] != '/' && bare[|bare| - 1] != '/'
    ensures var name := Lower(FirstWord(TrimEnd(TrimStart(bare))));
      && TagOf(bare, text) == Tok(name, Open, text) && TagOf("/" + bare, text) == Tok(name, Close, text)
      && TagOf(bare + "/", text) == Tok(name, Self, text)
  {
    hide FirstWord, TrimEnd, TrimStart, Lower;
    assert ("/" + bare)[1..] == bare;
    assert (bare + "/")[0] == bare[0] && (bare + "/")[..|bare|] == bare;
  }

  lemma RawOk(w: Tag)
    requires NameOk(w.name) && NoCapitals(w.name) && AttributesOk(w.attributes)
    ensures var raw := Raw(w); raw != "" && raw[0] != '!' && raw[0] != '?' && '>' !in raw
  {
    hide Cased;
    CasedOk(w.name, w.caps);
    assert '>' !in Cased(w.name, w.caps);
  }

  lemma {:induction false} FindAt(before: string, c: char, after: string)
    requires c !in before && (after == "" || after[0] == c)
    ensures Find(before + after, c) == |before|
  {
    if before == "" {
      assert before + after == after;
    } else {
      assert (before + after)[1..] == before[1..] + after;
      FindAt(before[1..], c, after);
    }
  }

  /** A tag that is not a comment, CDATA or declaration. */
  lemma MarkupOfTag(raw: string, more: string)
    requires raw != "" && raw[0] != '!' && raw[0] != '?' && '>' !in raw
    ensures Markup("<" + raw + ">" + more) == Scanned("", [TagOf(raw, Scan(more).text)] + Scan(more).toks)
  {
    hide TagOf, Past, UpTo, StartsWith, Scan;
    var s := "<" + raw + ">" + more;
    FindAt("<" + raw, '>', ">" + more);
    assert s == "<" + raw + (">" + more);
    assert s[1] == raw[0];
    assert s[1..|raw| + 1] == raw && s[|raw| + 2..] == more;
    StartsElse(s, "<!--", 1);
    StartsElse(s, "<![CDATA[", 1);
    StartsElse(s, "<?", 1);
    StartsElse(s, "<!", 1);
  }

  // Text, and what else is behind tags.

  /** Text before markup is behind what precedes it. */
  lemma ScanText(text: string, s: string)
    requires '<' !in text && s != "" && s[0] == '<'
    ensures Scan(text + s) == Behind(text, Markup(s)) && Scan(s) == Markup(s)
  {
    hide Markup;
    FindAt(text, '<', s);
    FindAt("", '<', s);
    assert "" + s == s;
    assert (text + s)[..|text|] == text && (text + s)[|text|..] == s;
    assert s[..0] == "" && s[0..] == s && "" + Markup(s).text == Markup(s).text;
  }

  lemma TextBehind(a: string, b: string, s: Scanned)
    ensures Behind(a, Behind(b, s)) == Behind(a + b, s) && Behind("", s) == s
  {
    assert a + (b + s.text) == a + b + s.text && "" + s.text == s.text;
  }

  lemma ScanMore(text: string, s: string)
    requires '<' !in text && '<' in s
    ensures Scan(text + s) == Behind(text, Scan(s))
  {
    hide Markup, Scan, Behind;
    var lt := Find(s, '<');
    var before, rest := s[..lt], s[lt..];
    assert s == before + rest && text + s == text + before + rest;
    ScanText(text + before, rest);
    ScanText(before, rest);
    TextBehind(text, before, Markup(rest));
  }

  lemma {:induction false} FindFurther(s: string, part: string, rest: string)
    requires part != "" && Ends(s, part)
    ensures FindPart(s + part + rest, part) == Some(|s|)
  {
    var all := s + part;
    if s == "" {
      assert (all + rest)[..|part|] == part;
    } else {
      assert all[1..] == s[1..] + part && (all + rest)[1..] == s[1..] + part + rest;
      assert (all + rest)[..|part|] == all[..|part|];
      FindFurther(s[1..], part, rest);
    }
  }

  lemma PastEnd(s: string, part: string, rest: string)
    requires part != "" && Ends(s, part)
    ensures Past(s + part + rest, part) == rest && UpTo(s + part + rest, part) == s
  {
    FindFurther(s, part, rest);
  }

  lemma CommentSkipped(s: string, rest: string)
    requires Ends("<!--" + s, "-->")
    ensures var all := WritePiece(Comment(s)) + rest; all[0] == '<' && Markup(all) == Scan(rest)
  {
    hide Scan, Past, UpTo, Ends;
    PastEnd("<!--" + s, "-->", rest);
    assert StartsWith(WritePiece(Comment(s)) + rest, "<!--");
  }

  lemma CdataKept(s: string, rest: string)
    requires Ends(s, "]]>")
    ensures var all := WritePiece(Cdata(s)) + rest; all[0] == '<' && Markup(all) == Behind(s, Scan(rest))
  {
    hide Scan, Past, UpTo, Ends, Behind;
    var all, start := WritePiece(Cdata(s)) + rest, "<![CDATA[";
    PastEnd(s, "]]>", rest);
    assert all == start + (s + "]]>" + rest);
    assert all[9..] == s + "]]>" + rest && StartsWith(all, start);
    CdataIsNone(all);
  }

  lemma CdataIsNone(s: string)
    requires StartsWith(s, "<![CDATA[")
    ensures |s| >= 9 && !StartsWith(s, "<!--")
  {
    StartsAt(s, "<![CDATA[", 2);
    StartsElse(s, "<!--", 2);
  }

  lemma DeclarationSkipped(s: string, rest: string)
    requires PieceOk(Declaration(s))
    ensures var all := s + ">" + rest; all[0] == '<' && Markup(all) == Scan(rest)
  {
    hide Scan, Past, UpTo, Ends, StartsWith;
    var all := s + ">" + rest;
    PastEnd(s, ">", rest);
    StartsAlike(s, "<?", rest);
    StartsAlike(s, "<!", rest);
    StartsAlike(s, "<!--", rest);
    StartsAlike(s, "<![CDATA[", rest);
    StartsAt(all, if StartsWith(s, "<?") then "<?" else "<!", 0);
  }

  lemma StartsAlike(s: string, start: string, rest: string)
    requires '>' !in start
    ensures StartsWith(s + ">" + rest, start) <==> StartsWith(s, start)
  {
    var all := s + ">" + rest;
    if |s| < |start| {
      assert all[|s|] == '>' && start[|s|] in start;
      StartsElse(all, start, |s|);
    } else {
      assert all[..|start|] == s[..|start|];
    }
  }

  lemma ScanPiece(p: Piece, rest: string)
    requires PieceOk(p) && (p.Plain? ==> '<' in rest)
    ensures Scan(WritePiece(p) + rest) == Behind(PieceText(p), Scan(rest))
    ensures !p.Plain? ==> '<' in WritePiece(p) + rest
  {
    hide Scan, Markup, Ends, Behind;
    var all := WritePiece(p) + rest;
    TextBehind("", "", Scan(rest));
    match p
    case Plain(s) => ScanMore(s, rest);
    case Cdata(s) =>
      CdataKept(s, rest);
      ScanText("", all);
    case Comment(s) =>
      CommentSkipped(s, rest);
      ScanText("", all);
    case Declaration(s) =>
      DeclarationSkipped(s, rest);
      ScanText("", all);
  }

  /** What is behind a tag reads as its text. */
  lemma {:induction false} ScanPieces(ps: seq<Piece>, rest: string)
    requires PiecesOk(ps) && ('<' in rest || Closed(ps))
    ensures Scan(WritePieces(ps) + rest) == Behind(TextOf(ps), Scan(rest))
    ensures ps != [] || '<' in rest ==> '<' in WritePieces(ps) + rest
  {
    hide Scan, PieceOk, Behind, WritePiece, PieceText;
    TextBehind("", "", Scan(rest));
    if ps == [] {
      assert "" + rest == rest;
    } else {
      var more := WritePieces(ps[1..]) + rest;
      ScanPieces(ps[1..], rest);
      ScanPiece(ps[0], more);
      assert WritePieces(ps) + rest == WritePiece(ps[0]) + more;
      TextBehind(PieceText(ps[0]), TextOf(ps[1..]), Scan(rest));
    }
  }

  // What does not end.

  /** A part that ends in a character there is none of is nowhere. */
  lemma {:induction false} NoPart(s: string, part: string)
    requires part != "" && part[|part| - 1] !in s
    ensures FindPart(s, part) == None
  {
    assert !StartsWith(s, part) by {
      if |part| <= |s| {
        assert s[..|part|][|part| - 1] == s[|part| - 1];
      }
    }
    if s == "" {
    } else {
      NoPart(s[1..], part);
    }
  }

  /**
   * A comment that does not end is dropped with all behind it, and so is whatever else has no end of a tag behind it;
   * but CDATA that does not end is text.
   */
  lemma CutOff(s: string)
    ensures FindPart("<!--" + s, "-->") == None ==> Markup("<!--" + s) == Scanned("", [])
    ensures FindPart(s, "]]>") == None ==> Markup("<![CDATA[" + s) == Scanned(s, [])
    ensures '>' !in s && !StartsWith("<" + s, "<![CDATA[") ==> Markup("<" + s) == Scanned("", [])
  {
    hide FindPart, Scan, TagOf;
    ScanNothing();
    assert ("<!--" + s)[..4] == "<!--";
    var cdata := "<![CDATA[" + s;
    assert cdata[..9] == "<![CDATA[" && cdata[9..] == s;
    CdataIsNone(cdata);
    assert s + "" == s;
    if '>' !in s {
      NoPart("<" + s, "-->");
      NoPart("<" + s, ">");
      FindAt("<" + s, '>', "");
      assert "<" + s + "" == "<" + s;
    }
  }

  // Documents.

  lemma ScanNothing()
    ensures Scan("") == Scanned("", [])
  {
  }

  lemma BehindText(text: string, ts: seq<Tok>)
    ensures Behind(text, Scanned("", ts)) == Scanned(text, ts)
  {
    assert text + "" == text;
  }

  lemma WrittenFirst(ws: seq<Tag>)
    requires ws != []
    ensures var all := WriteAll(ws);
      all == "<" + Raw(ws[0]) + ">" + (WritePieces(ws[0].behind) + WriteAll(ws[1..])) && all[0] == '<'
  {
    hide Raw, WritePieces;
    var tag, behind, rest := "<" + Raw(ws[0]) + ">", WritePieces(ws[0].behind), WriteAll(ws[1..]);
    assert tag + behind + rest == tag + (behind + rest);
  }

  lemma {:induction false} MarkupReadBack(ws: seq<Tag>)
    requires TagsOk(ws) && ws != []
    ensures WriteAll(ws) != "" && WriteAll(ws)[0] == '<' && Markup(WriteAll(ws)) == Scanned("", Toks(ws))
    decreases ws, 0
  {
    hide AttributesOk, Raw, Markup, TagOf, Write, WriteAll, NameOk, Behind, Scan, PiecesOk, WritePieces, TextOf;
    var w, rest := ws[0], WriteAll(ws[1..]);
    WrittenFirst(ws);
    RawOk(w);
    MarkupOfTag(Raw(w), WritePieces(w.behind) + rest);
    RestReadBack(ws[1..]);
    ScanPieces(w.behind, rest);
    BehindText(TextOf(w.behind), Toks(ws[1..]));
    TagOfRaw(w, TextOf(w.behind));
  }

  /** The tags behind another. */
  lemma {:induction false} RestReadBack(ws: seq<Tag>)
    requires TagsOk(ws)
    ensures Scan(WriteAll(ws)) == Scanned("", Toks(ws)) && (ws != [] ==> '<' in WriteAll(ws))
    decreases ws, 1
  {
    hide Scan, Markup, Write, TagOk, Behind;
    if ws == [] {
      ScanNothing();
    } else {
      MarkupReadBack(ws);
      ScanText("", WriteAll(ws));
    }
  }

  /**
   * Tags written out are read back as their tokens: whatever attributes they have, letters of either case in their
   * names, and text, CDATA, comments, declarations and instructions behind them.
   */
  lemma TokensReadBack(ws: seq<Tag>)
    requires TagsOk(ws)
    ensures Scan(WriteAll(ws)).toks == Toks(ws)
  {
    hide Scan, WriteAll, Toks, TagsOk;
    RestReadBack(ws);
  }

  /** Instructions, declarations, comments, CDATA and text before a document give no tokens. */
  lemma PrologsSkipped(prologs: seq<Piece>, s: string)
    requires PiecesOk(prologs) && '<' in s
    ensures Scan(WritePieces(prologs) + s).toks == Scan(s).toks
  {
    hide Scan, WritePieces, PiecesOk;
    ScanPieces(prologs, s);
  }

  // The code.

  /** Tokens read, and text or tokens behind them. */
  function Joined(toks: seq<Tok>, s: Scanned): seq<Tok> {
    AddText(toks, s.text) + s.toks
  }

  /** Text added to the last token's; text before any token is dropped. */
  function AddText(toks: seq<Tok>, text: string): (r: seq<Tok>) {
    if toks == [] then []
    else
      var last := toks[|toks| - 1];
      toks[..|toks| - 1] + [last.(text := last.text + text)]
  }

  lemma TextTwice(toks: seq<Tok>, text: string, s: Scanned)
    ensures Joined(toks, Behind(text, s)) == Joined(AddText(toks, text), s)
  {
    if toks != [] {
      var last := toks[|toks| - 1];
      assert last.text + (text + s.text) == last.text + text + s.text;
      assert AddText(toks, text)[..|toks| - 1] == toks[..|toks| - 1];
    }
  }

  lemma OneMore(toks: seq<Tok>, t: Tok, s: Scanned)
    requires t.text == ""
    ensures Joined(toks, Scanned("", [t.(text := s.text)] + s.toks)) == Joined(toks + [t], s)
  {
    assert "" + s.text == s.text;
    assert (toks + [t])[..|toks|] == toks;
    NoText(toks);
  }

  lemma NoText(toks: seq<Tok>)
    ensures AddText(toks, "") == toks
  {
    if toks != [] {
      var last := toks[|toks| - 1];
      assert last.text + "" == last.text;
      assert toks == toks[..|toks| - 1] + [last];
    }
  }

  lemma TagText(raw: string, text: string)
    ensures TagOf(raw, "").(text := text) == TagOf(raw, text)
  {
  }

  lemma ScanIs(s: string)
    ensures Scan(s)
      == if Find(s, '<') == |s| then Scanned("", []) else Behind(s[..Find(s, '<')], Markup(s[Find(s, '<')..]))
  {
    hide Markup, Behind;
  }

  /** What the markup at `lt` adds to the tokens, and where it ends; `done` when nothing more is to be read. */
  method ReadMarkup(xml: string, lt: nat, before: seq<Tok>) returns (toks: seq<Tok>, i: nat, done: bool)
    requires lt < |xml| && xml[lt] == '<'
    ensures lt < i <= |xml|
    ensures Joined(before, Markup(xml[lt..])) == if done then toks else Joined(toks, Scan(xml[i..]))
  {
    hide TagOf, AddText, StartsWith, Past, UpTo, Joined, Scan, Behind;
    var s := xml[lt..];
    toks, done := before, false;
    if StartsWith(s, "<!--") {
      PastIsEnd(xml, s, "-->");
      i := |xml| - |Past(s, "-->")|;
    } else if StartsWith(s, "<![CDATA[") {
      CdataIsNone(s);
      TextTwice(before, UpTo(s[9..], "]]>"), Scan(Past(s[9..], "]]>")));
      PastIsEnd(xml, s[9..], "]]>");
      toks := AddText(before, UpTo(s[9..], "]]>"));
      i := |xml| - |Past(s[9..], "]]>")|;
    } else if StartsWith(s, "<?") || StartsWith(s, "<!") {
      PastIsEnd(xml, s, ">");
      i := |xml| - |Past(s, ">")|;
    } else {
      var gt := Find(s, '>');
      if gt == |s| {
        Dropped(before);
        return before, |xml|, true;
      }
      var tag := TagOf(s[1..gt], "");
      assert s[gt + 1..] == xml[lt + gt + 1..];
      TagText(s[1..gt], Scan(s[gt + 1..]).text);
      OneMore(before, tag, Scan(s[gt + 1..]));
      toks := before + [tag];
      i := lt + gt + 1;
    }
  }

  method Tokenize(xml: string) returns (toks: seq<Tok>)
    ensures toks == Scan(xml).toks
  {
    hide *;
    toks := [];
    var i: nat := 0;
    assert xml[0..] == xml;
    Nothing(Scan(xml));
    while i < |xml|
      invariant 0 <= i <= |xml|
      invariant Scan(xml).toks == Joined(toks, Scan(xml[i..]))
      decreases |xml| - i
    {
      ScanIs(xml[i..]);
      var lt := i + Find(xml[i..], '<');
      if lt == |xml| {
        Dropped(toks);
        return;
      }
      assert xml[i..][..lt - i] == xml[i..lt] && xml[i..][lt - i..] == xml[lt..];
      TextTwice(toks, xml[i..lt], Markup(xml[lt..]));
      var done: bool;
      toks, i, done := ReadMarkup(xml, lt, AddText(toks, xml[i..lt]));
      if done {
        return;
      }
    }
    assert xml[i..] == "";
    ScanNothing();
    Dropped(toks);
  }

  lemma Nothing(s: Scanned)
    ensures Joined([], s) == s.toks
  {
  }

  lemma Dropped(toks: seq<Tok>)
    ensures Joined(toks, Scanned("", [])) == toks
  {
    NoText(toks);
  }

  lemma PastIsEnd(xml: string, s: string, part: string)
    requires |s| <= |xml| && xml[|xml| - |s|..] == s && part != ""
    ensures |Past(s, part)| <= |s| && xml[|xml| - |Past(s, part)|..] == Past(s, part)
  {
  }
}
