/** A page as a reader sees it: characters, tags and character data. */
module PageTokens {
  import opened Cdata
  import opened Options

  datatype Token = Char(c: char) | Tag(name: string) | Data(text: string)

  /** Inside a tag its name is being read. */
  function Next(c: char, open: Option<string>): Option<string> {
    match open
    case Some(name) => if c == '>' then None else Some(name + [c])
    case None => if c == '<' then Some("") else None
  }

  function After(s: string, open: Option<string>): Option<string> {
    if s == "" then open else After(s[1..], Next(s[0], open))
  }

  /** What one character completes. */
  function Emit(c: char, open: Option<string>): seq<Token> {
    match open
    case Some(name) => if c == '>' then [Tag(name)] else []
    case None => if c == '<' then [] else [Char(c)]
  }

  /** Characters and tags of a text without character data. */
  function TagLex(s: string, open: Option<string>): seq<Token> {
    if s == "" then [] else Emit(s[0], open) + TagLex(s[1..], Next(s[0], open))
  }

  /** All tokens of a page; a section is recognised only outside a tag, and consecutive ones are one token. */
  function Lex(s: string, open: Option<string>): seq<Token>
    decreases |s|
  {
    if s == "" then []
    else
      SectionsLength(s);
      var data := if open.None? then ReadSections(s) else None;
      match data
      case Some(r) => [Data(r.content)] + Lex(r.rest, None)
      case None => Emit(s[0], open) + Lex(s[1..], Next(s[0], open))
  }

  // ----- reading in parts -----

  lemma {:induction false} LexAppend(s: string, t: string, open: Option<string>)
    ensures TagLex(s + t, open) == TagLex(s, open) + TagLex(t, After(s, open))
    ensures After(s + t, open) == After(t, After(s, open))
  {
    if s == "" {
      assert s + t == t;
    } else {
      assert (s + t)[1..] == s[1..] + t;
      LexAppend(s[1..], t, Next(s[0], open));
    }
  }

  /** No section starts at position `i`, not even together with what follows. */
  predicate PlainAt(x: string, i: nat)
    requires i < |x|
  {
    x[i] == '<' ==> i + 1 < |x| && x[i + 1] != '!'
  }

  predicate Plain(x: string) {
    forall i | 0 <= i < |x| :: PlainAt(x, i)
  }

  lemma PlainRest(x: string)
    requires Plain(x) && x != ""
    ensures Plain(x[1..]) && PlainAt(x, 0)
  {
    forall i | 0 <= i < |x[1..]|
      ensures PlainAt(x[1..], i)
    {
      assert PlainAt(x, i + 1);
    }
  }

  lemma NoSection(s: string)
    requires |s| < 2 || s[0] != '<' || s[1] != '!'
    ensures !(SECTION_START <= s)
  {
    assert SECTION_START[0] == '<' && SECTION_START[1] == '!';
  }

  lemma LexStep(s: string, open: Option<string>)
    requires s != "" && !(SECTION_START <= s)
    ensures Lex(s, open) == Emit(s[0], open) + Lex(s[1..], Next(s[0], open))
  {
  }

  lemma PlainNoSection(s: string, t: string)
    requires Plain(s) && s != ""
    ensures !(SECTION_START <= s + t) && (s + t)[0] == s[0] && (s + t)[1..] == s[1..] + t && Plain(s[1..])
  {
    PlainRest(s);
    NoSection(s + t);
  }

  lemma {:induction false} LexPlain(s: string, t: string, open: Option<string>)
    requires Plain(s)
    ensures Lex(s + t, open) == TagLex(s, open) + Lex(t, After(s, open))
  {
    if s == "" {
      assert s + t == t;
    } else {
      PlainNoSection(s, t);
      LexStep(s + t, open);
      LexPlain(s[1..], t, Next(s[0], open));
    }
  }

  lemma LexData(body: string, rest: string)
    requires !(SECTION_START <= rest)
    ensures Lex(Write(body) + rest, None) == [Data(body)] + Lex(rest, None)
  {
    ReadBack(body, rest);
  }

  /** A tag is read as its name. */
  predicate TagName(name: string) {
    name != "" && name[0] != '!' && forall i | 0 <= i < |name| :: name[i] != '>' && name[i] != '<'
  }

  lemma {:induction false} InTag(name: string, read: string)
    requires forall i | 0 <= i < |name| :: name[i] != '>'
    ensures TagLex(name + ">", Some(read)) == [Tag(read + name)] && After(name + ">", Some(read)) == None
  {
    var t := name + ">";
    if name == "" {
      assert t == ">" && t[1..] == "" && read + name == read;
      assert After("", None) == None;
    } else {
      assert t[1..] == name[1..] + ">";
      InTag(name[1..], read + [name[0]]);
      assert read + [name[0]] + name[1..] == read + name;
    }
  }

  lemma TagIsRead(name: string)
    requires TagName(name)
    ensures var t := "<" + name + ">"; TagLex(t, None) == [Tag(name)] && After(t, None) == None && Plain(t)
  {
    var t := "<" + name + ">";
    assert t[1..] == name + ">";
    InTag(name, "");
    assert "" + name == name;
    assert forall i | 0 <= i < |name| :: t[i + 1] == name[i];
  }
}
