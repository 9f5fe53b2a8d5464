/**
 * How `protect` (controllers/authController.js) pulls the token out of the
 * `Authorization` header: the header must start with "Bearer", and the token
 * is the second field of `header.split(" ")`.
 */
module BearerHeader {
  import opened Wrappers

  /**
   * `s.split(sep)` for a one-character separator: the maximal runs between
   * separators, empty runs included, so there is always at least one field.
   */
  function Split(s: string, sep: char): (parts: seq<string>)
    ensures |parts| >= 1
    ensures forall i :: 0 <= i < |parts| ==> sep !in parts[i]
    decreases |s|
  {
    if s == [] then [[]]
    else
      var rest := Split(s[1..], sep);
      if s[0] == sep then [[]] + rest
      else [[s[0]] + rest[0]] + rest[1..]
  }

  /** `parts.join(sep)`. */
  function Join(parts: seq<string>, sep: char): string
    requires |parts| >= 1
    decreases |parts|
  {
    if |parts| == 1 then parts[0] else parts[0] + [sep] + Join(parts[1..], sep)
  }

  /** A string without the separator is a single field. */
  lemma {:induction false} SplitWithoutSeparator(w: string, sep: char)
    requires sep !in w
    ensures Split(w, sep) == [w]
    decreases |w|
  {
    if w != [] {
      SplitWithoutSeparator(w[1..], sep);
      assert [w[0]] + w[1..] == w;
    }
  }

  /** A separator-free word followed by the separator splits off as the first field. */
  lemma {:induction false} SplitAtSeparator(w: string, sep: char, rest: string)
    requires sep !in w
    ensures Split(w + [sep] + rest, sep) == [w] + Split(rest, sep)
    decreases |w|
  {
    var s := w + [sep] + rest;
    if w == [] {
      assert s[0] == sep && s[1..] == rest;
    } else {
      assert s[0] == w[0];
      assert s[1..] == w[1..] + [sep] + rest;
      SplitAtSeparator(w[1..], sep, rest);
      assert [w[0]] + w[1..] == w;
    }
  }

  /** The first field keeps every separator-free prefix of the string. */
  lemma {:induction false} SplitKeepsPrefix(s: string, p: string, sep: char)
    requires p <= s && sep !in p
    ensures p <= Split(s, sep)[0]
    decreases |p|
  {
    if p != [] {
      assert s[0] == p[0];
      SplitKeepsPrefix(s[1..], p[1..], sep);
      assert p == [p[0]] + p[1..];
    }
  }

  /** Joining the fields gives back the string. */
  lemma {:induction false} JoinSplit(s: string, sep: char)
    ensures Join(Split(s, sep), sep) == s
    decreases |s|
  {
    if s != [] {
      JoinSplit(s[1..], sep);
      var rest := Split(s[1..], sep);
      var parts := Split(s, sep);
      if s[0] == sep {
        assert parts == [[]] + rest;
        assert parts[1..] == rest;
      } else {
        assert parts == [[s[0]] + rest[0]] + rest[1..];
        if |rest| > 1 {
          assert parts[1..] == rest[1..];
        }
      }
      assert s == [s[0]] + s[1..];
    }
  }

  /** Splitting a join of separator-free fields gives back the fields. */
  lemma {:induction false} SplitJoin(parts: seq<string>, sep: char)
    requires |parts| >= 1
    requires forall i :: 0 <= i < |parts| ==> sep !in parts[i]
    ensures Split(Join(parts, sep), sep) == parts
    decreases |parts|
  {
    if |parts| == 1 {
      SplitWithoutSeparator(parts[0], sep);
    } else {
      SplitJoin(parts[1..], sep);
      SplitAtSeparator(parts[0], sep, Join(parts[1..], sep));
      assert parts == [parts[0]] + parts[1..];
    }
  }

  /**
   * The token `protect` would use, or `None` when it answers "You are not
   * logged in!": no header, a header not starting with "Bearer", fewer than
   * two fields, or an empty second field.
   */
  function BearerToken(authorization: Option<string>): (token: Option<string>)
    ensures authorization.None? ==> token.None?
    ensures token.Some? ==> "Bearer" <= authorization.value
    ensures token.Some? ==> token.value != "" && ' ' !in token.value
  {
    if authorization.Some? && authorization.value != "" && "Bearer" <= authorization.value then
      var parts := Split(authorization.value, ' ');
      if |parts| >= 2 && parts[1] != "" then Some(parts[1]) else None
    else None
  }

  /**
   * A header made of a word starting with "Bearer", one space, a non-empty
   * token and then nothing or a space-led tail yields that token. The word
   * need not be exactly "Bearer": "Bearerxyz t" yields "t".
   */
  lemma BearerTokenOf(word: string, token: string, rest: string)
    requires "Bearer" <= word && ' ' !in word
    requires token != "" && ' ' !in token
    requires rest == "" || rest[0] == ' '
    ensures BearerToken(Some(word + " " + token + rest)) == Some(token)
  {
    var h := word + " " + token + rest;
    assert h == word + [' '] + (token + rest);
    SplitAtSeparator(word, ' ', token + rest);
    if rest == "" {
      assert token + rest == token;
      SplitWithoutSeparator(token, ' ');
    } else {
      assert token + rest == token + [' '] + rest[1..];
      SplitAtSeparator(token, ' ', rest[1..]);
    }
    assert h[..|word|] == word;
  }

  /**
   * Conversely, every token `protect` accepts comes from a header of that
   * shape: a "Bearer"-led word, one space, the token, then nothing or a
   * space-led tail.
   */
  lemma BearerTokenShape(h: string, token: string) returns (word: string, rest: string)
    requires BearerToken(Some(h)) == Some(token)
    ensures h == word + " " + token + rest
    ensures "Bearer" <= word && ' ' !in word
    ensures rest == "" || rest[0] == ' '
  {
    var parts := Split(h, ' ');
    JoinSplit(h, ' ');
    SplitKeepsPrefix(h, "Bearer", ' ');
    word := parts[0];
    assert parts[1..][0] == token;
    if |parts| == 2 {
      rest := "";
    } else {
      assert parts[1..][1..] == parts[2..];
      rest := " " + Join(parts[2..], ' ');
    }
  }

  /** A header without a space never carries a token: "BearerX" alone is refused. */
  lemma HeaderWithoutSpace(h: string)
    requires ' ' !in h
    ensures BearerToken(Some(h)) == None
  {
    SplitWithoutSeparator(h, ' ');
  }
}
