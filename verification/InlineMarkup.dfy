/** The rewriting of inline markup: escaping, then one pass each for bold, code and emphasis. */
module InlineMarkup {

  // ----- escaping -----

  function EscapeChar(c: char): string {
    if c == '&' then "&amp;" else if c == '<' then "&lt;" else if c == '>' then "&gt;" else [c]
  }

  function EscapeHtml(s: string): string {
    if s == "" then "" else EscapeChar(s[0]) + EscapeHtml(s[1..])
  }

  // ----- marks -----

  datatype Mark = Bold | Code | Em

  function Width(k: Mark): nat {
    if k == Bold then 2 else 1
  }

  /** A mark of the kind stands at position `i`. */
  predicate MarkAt(k: Mark, s: string, i: nat) {
    match k
    case Bold => i + 1 < |s| && s[i] == '*' && s[i + 1] == '*'
    case Code => i < |s| && s[i] == '`'
    case Em => i < |s| && s[i] == '*'
  }

  /** The characters a marked text may hold. */
  predicate Holds(k: Mark, c: char) {
    match k
    case Bold => c != '\n'
    case Code => c != '`'
    case Em => c != '*' && c != '\n'
  }

  /** The source's pattern: at the start of `s` stands a mark, then `n` characters, then the mark again.
      A mark of emphasis stands alone: no star before the first (`after`) and none behind the second. */
  predicate Matches(k: Mark, after: bool, s: string, n: nat) {
    var w := Width(k);
    && n >= 1 && MarkAt(k, s, 0) && MarkAt(k, s, w + n)
    && (forall i | w <= i < w + n :: Holds(k, s[i]))
    && (k == Em ==> !after && (n + 2 < |s| ==> s[n + 2] != '*'))
  }

  /** The first position from `i` on where the mark stands, or -1 if a character comes first that is not allowed. */
  function Close(k: Mark, s: string, i: nat): (c: int)
    ensures c >= 0 ==> i <= c && MarkAt(k, s, c) && forall j | i <= j < c :: Holds(k, s[j])
    ensures forall j | i <= j && MarkAt(k, s, j) && (c < 0 || j < c) :: exists m | i <= m < j :: !Holds(k, s[m])
    decreases |s| - i
  {
    if i >= |s| then -1
    else if MarkAt(k, s, i) then i
    else if !Holds(k, s[i]) then -1
    else Close(k, s, i + 1)
  }

  /** The length of the marked text at the start of `s`, or 0. */
  function Find(k: Mark, after: bool, s: string): (n: nat)
    ensures n > 0 ==> Matches(k, after, s, n)
  {
    var w := Width(k);
    if !MarkAt(k, s, 0) || w >= |s| || !Holds(k, s[w]) || (k == Em && after) then 0
    else
      var c := Close(k, s, w + 1);
      if c < 0 || (k == Em && c + 1 < |s| && s[c + 1] == '*') then 0 else c - w
  }

  /** It is the shortest match there is. */
  lemma FindIsShortest(k: Mark, after: bool, s: string, n: nat)
    requires Matches(k, after, s, n)
    ensures 0 < Find(k, after, s) <= n
  {
    var w := Width(k);
    assert Holds(k, s[w]);
    var c := Close(k, s, w + 1);
    assert forall m | w + 1 <= m < w + n :: Holds(k, s[m]);
    assert 0 <= c <= w + n;
    if k == Em {
      assert c == w + n by { assert c < w + n ==> !Holds(k, s[c]); }
    }
  }

  function Name(k: Mark): string {
    match k case Bold => "strong" case Code => "code" case Em => "em"
  }

  function Open(k: Mark): string {
    "<" + Name(k) + ">"
  }

  function Shut(k: Mark): string {
    "<" + "/" + Name(k) + ">"
  }

  /** Replaces every match from left to right; `after` tells whether a star comes before `s`. */
  function Sub(k: Mark, after: bool, s: string): string
    decreases |s|
  {
    if s == "" then ""
    else
      var n, w := Find(k, after, s), Width(k);
      if n == 0 then [s[0]] + Sub(k, s[0] == '*', s[1..])
      else Open(k) + s[w..w + n] + Shut(k) + Sub(k, s[w + n] == '*', s[w + n + w..])
  }

  lemma SubUnfold(k: Mark, after: bool, s: string)
    requires Find(k, after, s) > 0
    ensures var n, w := Find(k, after, s), Width(k);
            && n + 2 * w <= |s|
            && Sub(k, after, s) == Open(k) + s[w..w + n] + Shut(k) + Sub(k, s[w + n] == '*', s[w + n + w..])
  {
  }

  /** One line of text as it is shown on the page. */
  function Inline(text: string): string {
    Sub(Em, false, Sub(Code, false, Sub(Bold, false, EscapeHtml(text))))
  }
}
