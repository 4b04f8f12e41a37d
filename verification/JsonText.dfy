/** The step of json::from that cleans a text before it is parsed. */
module JsonText {
  import opened Wrappers

  /** std::string::rfind of a character. */
  function RFind(s: string, c: char): (r: Option<nat>)
    ensures r.Some? ==> r.value < |s| && s[r.value] == c && c !in s[r.value + 1..]
    ensures r.None? ==> c !in s
  {
    if s == [] then None
    else if s[|s| - 1] == c then Some(|s| - 1)
    else
      assert forall k :: 0 <= k < |s| - 1 ==> s[..|s| - 1][k] == s[k];
      RFind(s[..|s| - 1], c)
  }

  /** r is what is left of s up to and with the last c, or all of s if there is none. */
  predicate UpToLast(s: string, c: char, r: string) {
    r <= s && (if c in s then r != [] && r[|r| - 1] == c && c !in s[|r|..] else r == s)
  }

  /** A text without what follows its last newline, and then without what follows the last brace of that. */
  ghost predicate Cleaned(input: string, r: string) {
    exists lines :: UpToLast(input, '\n', lines) && UpToLast(lines, '}', r)
  }

  method Clean(input: string) returns (cpy: string)
    ensures Cleaned(input, cpy)
  {
    cpy := input;
    var idx := RFind(cpy, '\n');
    if idx.Some? {
      cpy := cpy[..idx.value + 1];
    }
    ghost var lines := cpy;
    assert UpToLast(input, '\n', lines);
    var lastBraceIdx := RFind(cpy, '}');
    if lastBraceIdx.Some? && lastBraceIdx.value != |cpy| - 1 {
      cpy := cpy[..lastBraceIdx.value + 1];
    }
    assert UpToLast(lines, '}', cpy);
  }

  lemma CleanedIsUnique(input: string, r1: string, r2: string)
    requires Cleaned(input, r1) && Cleaned(input, r2)
    ensures r1 == r2
  {
  }

  /** Exactly when a document is recovered from what was received after it: when no brace follows it up to the
      last newline after it, or, if no newline follows it, when it has none itself and no brace follows it. */
  lemma DocumentIsRecoveredIff(doc: string, rest: string)
    requires doc != [] && doc[|doc| - 1] == '}'
    ensures Cleaned(doc + rest, doc) <==>
            if '\n' in rest then '}' !in rest[..RFind(rest, '\n').value] else '\n' !in doc && '}' !in rest
  {
    if '\n' in rest {
      CutInRest(doc, rest, RFind(rest, '\n').value);
    } else if '\n' in doc {
      CutInDocument(doc, rest, RFind(doc, '\n').value);
    } else {
      assert UpToLast(doc + rest, '\n', doc + rest);
      BraceAfter(doc, rest);
      Through(doc + rest, doc + rest, doc);
    }
  }

  lemma CutInRest(doc: string, rest: string, at: nat)
    requires doc != [] && doc[|doc| - 1] == '}'
    requires at < |rest| && rest[at] == '\n' && '\n' !in rest[at + 1..]
    ensures Cleaned(doc + rest, doc) <==> '}' !in rest[..at]
  {
    var input, lines := doc + rest, doc + rest[..at + 1];
    assert input[|lines|..] == rest[at + 1..];
    assert input[|lines| - 1] == '\n' && UpToLast(input, '\n', lines);
    BraceAfter(doc, rest[..at + 1]);
    BeforeNewline(rest, at);
    Through(input, lines, doc);
  }

  lemma CutInDocument(doc: string, rest: string, at: nat)
    requires at < |doc| && doc[at] == '\n' && '\n' !in doc[at + 1..] && '\n' !in rest && doc[|doc| - 1] == '}'
    ensures !Cleaned(doc + rest, doc)
  {
  }

  lemma Through(input: string, lines: string, r: string)
    requires UpToLast(input, '\n', lines)
    ensures Cleaned(input, r) <==> UpToLast(lines, '}', r)
  {
  }

  lemma BraceAfter(doc: string, more: string)
    requires doc != [] && doc[|doc| - 1] == '}'
    ensures UpToLast(doc + more, '}', doc) <==> '}' !in more
  {
  }

  lemma BeforeNewline(rest: string, at: nat)
    requires at < |rest| && rest[at] == '\n'
    ensures '}' in rest[..at + 1] <==> '}' in rest[..at]
  {
  }

  /** A document is recovered from a newline and any tail of one line. */
  lemma TailIsRemoved(doc: string, tail: string)
    requires doc != [] && doc[|doc| - 1] == '}' && '\n' !in tail
    ensures Cleaned(doc + "\n" + tail, doc)
  {
    var rest := "\n" + tail;
    assert doc + "\n" + tail == doc + rest;
    assert rest[0] == '\n' && forall k :: 1 <= k < |rest| ==> rest[k] == tail[k - 1];
    assert RFind(rest, '\n').value == 0;
    DocumentIsRecoveredIff(doc, rest);
  }
}
