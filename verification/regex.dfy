/** The regular-expression library as the out command uses it. The engine
    itself (compilation, searching, `$1` expansion) is not part of this model:
    an `Engine` is a record of functions that stand for it. What is modelled
    is how `ReplaceAllString` walks the input: every non-overlapping match,
    left to right, is replaced by the expanded template. Strings are
    sequences of characters, so a position advances one character at a time. */
module Regex {
  import opened Types

  /** A match of the whole pattern: the characters s[start..end]. */
  datatype Span = Span(start: nat, end: nat)

  /** The regular-expression library.
      - compiles(pattern): regexp.Compile accepts the pattern;
      - find(pattern, s, pos): the leftmost match starting at or after pos;
      - expand(pattern, template, s, m): the template with its group
        references filled in from the match m of pattern in s. */
  datatype Engine = Engine(
    compiles: string -> bool,
    find: (string, string, nat) -> Option<Span>,
    expand: (string, string, string, Span) -> string)

  /** The leftmost match of `pattern` in `s` at or after `pos`. A span the
      engine reports outside those bounds is not a match. */
  function Find(re: Engine, pattern: string, s: string, pos: nat): (r: Option<Span>)
    ensures r.Some? ==> pos <= r.value.start <= r.value.end <= |s|
    ensures r.Some? ==> re.find(pattern, s, pos) == r
  {
    match re.find(pattern, s, pos)
    case Some(m) => if pos <= m.start <= m.end <= |s| then Some(m) else None
    case None => None
  }

  /** The pattern matches somewhere in `s` (regexp's MatchString, which is unanchored). */
  predicate MatchString(re: Engine, pattern: string, s: string) {
    Find(re, pattern, s, 0).Some?
  }

  /** One pass of Go's replaceAll loop from search position `pos`, where
      `last` is the end of the previous match: copy the text between matches,
      insert the expansion (except for an empty match right after another
      match), and move on at least one character. */
  function ReplaceFrom(re: Engine, pattern: string, s: string, template: string, pos: nat, last: nat): string
    requires last <= pos && last <= |s|
    decreases |s| + 1 - pos
  {
    if pos > |s| then s[last..]
    else match Find(re, pattern, s, pos)
      case None => s[last..]
      case Some(m) =>
        var next := if pos + 1 > m.end then pos + 1 else m.end;
        s[last..m.start]
        + (if m.end > last || m.start == 0 then re.expand(pattern, template, s, m) else "")
        + ReplaceFrom(re, pattern, s, template, next, m.end)
  }

  /** ReplaceAllString: every non-overlapping match of `pattern` in `s` replaced
      by `template` with its group references expanded. */
  function ReplaceAll(re: Engine, pattern: string, s: string, template: string): (r: string)
    ensures !MatchString(re, pattern, s) ==> r == s
  {
    ReplaceFrom(re, pattern, s, template, 0, 0)
  }

  /** Replacing every match by the text it matched leaves the rest of the
      input as it was. */
  lemma {:induction false} ReplaceFromMatchedText(re: Engine, pattern: string, s: string, template: string, pos: nat, last: nat)
    requires last <= pos && last <= |s|
    requires forall m: Span :: m.start <= m.end <= |s| ==> re.expand(pattern, template, s, m) == s[m.start..m.end]
    ensures ReplaceFrom(re, pattern, s, template, pos, last) == s[last..]
    decreases |s| + 1 - pos
  {
    if pos <= |s| {
      match Find(re, pattern, s, pos)
      case None =>
      case Some(m) =>
        var next := if pos + 1 > m.end then pos + 1 else m.end;
        ReplaceFromMatchedText(re, pattern, s, template, next, m.end);
        if m.end > last || m.start == 0 {
          assert s[m.start..] == s[m.start..m.end] + s[m.end..];
          assert s[last..] == s[last..m.start] + s[m.start..];
        } else {
          assert m.start == m.end == last;
        }
    }
  }

  /** ReplaceAll loses and duplicates nothing: when every match is replaced by
      its own text (the template "$0"), the result is the input. */
  lemma ReplaceAllMatchedText(re: Engine, pattern: string, s: string, template: string)
    requires forall m: Span :: m.start <= m.end <= |s| ==> re.expand(pattern, template, s, m) == s[m.start..m.end]
    ensures ReplaceAll(re, pattern, s, template) == s
  {
    ReplaceFromMatchedText(re, pattern, s, template, 0, 0);
  }

  /** Text before the first match is copied unchanged, and the first match is
      replaced by its expansion. */
  lemma ReplaceAllFirstMatch(re: Engine, pattern: string, s: string, template: string)
    requires MatchString(re, pattern, s)
    ensures var m := Find(re, pattern, s, 0).value;
      s[..m.start] + re.expand(pattern, template, s, m) <= ReplaceAll(re, pattern, s, template)
  {
  }
}
