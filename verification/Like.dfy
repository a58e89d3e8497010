/**
 * Prefix queries of ctxgraph (pkg/ctxgraph/src/store.rs): a key prefix becomes a SQL LIKE pattern.
 * The matcher is SQLite's LIKE with escape character backslash, ASCII case folded, `%` with
 * backtracking. The engine compares both texts only up to their first NUL, and its UTF-8 reader
 * takes U+FFFE and U+FFFF for U+FFFD.
 */
module Like {
  const NUL: char := '\0'

  function Fold(c: char): char {
    if 'A' <= c <= 'Z' then (c as int + 32) as char else c
  }

  /** A character as the engine reads it. */
  function Seen(c: char): char {
    if c == '\U{FFFE}' || c == '\U{FFFF}' then '\U{FFFD}' else c
  }

  predicate SameSeen(c: char, d: char) {
    Fold(Seen(c)) == Fold(Seen(d))
  }

  /** Does `key` match the pattern? A pattern ending in the escape character matches nothing. */
  predicate Matches(pattern: string, key: string)
    decreases |pattern| + |key|
  {
    if pattern == "" then key == ""
    else if pattern[0] == '%' then
      Matches(pattern[1..], key) || (key != "" && Matches(pattern, key[1..]))
    else if pattern[0] == '_' then
      key != "" && Matches(pattern[1..], key[1..])
    else if pattern[0] == '\\' then
      |pattern| > 1 && key != "" && SameSeen(pattern[1], key[0]) && Matches(pattern[2..], key[1..])
    else
      key != "" && SameSeen(pattern[0], key[0]) && Matches(pattern[1..], key[1..])
  }

  predicate BeginsWith(key: string, prefix: string) {
    |prefix| <= |key| && forall i :: 0 <= i < |prefix| ==> SameUpToCase(key[i], prefix[i])
  }

  /** Equal, or the two cases of one ASCII letter. */
  predicate SameUpToCase(c: char, d: char) {
    c == d || ('A' <= c <= 'Z' && d as int == c as int + 32) || ('A' <= d <= 'Z' && c as int == d as int + 32)
  }

  /** str::replace of one character by a string. */
  function Replace(s: string, c: char, into: string): string {
    if s == "" then "" else (if s[0] == c then into else [s[0]]) + Replace(s[1..], c, into)
  }

  /** query_by_prefix: two replacements in a row, then a trailing wildcard. */
  function Pattern(prefix: string): string {
    Replace(Replace(prefix, '%', "\\%"), '_', "\\_") + "%"
  }

  function UpToNul(s: string): string {
    if s == "" || s[0] == NUL then "" else [s[0]] + UpToNul(s[1..])
  }

  /** The rows that the query for `prefix` selects, by their key. */
  predicate Selects(prefix: string, key: string) {
    Matches(UpToNul(Pattern(prefix)), UpToNul(key))
  }

  // ---------------------------------------------------------------- one pass is enough

  function EscapeChar(c: char): string {
    if c == '%' then "\\%" else if c == '_' then "\\_" else [c]
  }

  function Escape(s: string): string {
    if s == "" then "" else EscapeChar(s[0]) + Escape(s[1..])
  }

  lemma {:induction false} ReplaceConcat(s: string, t: string, c: char, into: string)
    ensures Replace(s + t, c, into) == Replace(s, c, into) + Replace(t, c, into)
  {
    if s == "" {
      assert s + t == t;
    } else {
      assert (s + t)[1..] == s[1..] + t;
      ReplaceConcat(s[1..], t, c, into);
    }
  }

  lemma {:induction false} TwoPassesAreOne(s: string)
    ensures Replace(Replace(s, '%', "\\%"), '_', "\\_") == Escape(s)
  {
    if s != "" {
      var head := if s[0] == '%' then "\\%" else [s[0]];
      ReplaceConcat(head, Replace(s[1..], '%', "\\%"), '_', "\\_");
      assert Replace(head, '_', "\\_") == EscapeChar(s[0]) by {
        if s[0] == '%' {
          assert head[1..] == "%" && "%"[1..] == "";
          assert Replace("%", '_', "\\_") == "%";
        } else {
          assert head[1..] == "";
        }
      }
      TwoPassesAreOne(s[1..]);
    }
  }

  // ---------------------------------------------------------------- what the pattern means

  lemma {:induction false} WildcardMatchesAll(key: string)
    ensures Matches("%", key)
    decreases |key|
  {
    assert "%"[1..] == "";
    if key != "" { WildcardMatchesAll(key[1..]); }
  }

  /** The pattern is one escaped character after another. */
  lemma PatternStep(t: string)
    requires t != ""
    ensures Escape(t) + "%" == EscapeChar(t[0]) + (Escape(t[1..]) + "%")
  {
  }

  lemma EscapedCharMatches(c: char, rest: string, key: string)
    requires c != '\\'
    ensures Matches(EscapeChar(c) + rest, key) <==> key != "" && SameSeen(c, key[0]) && Matches(rest, key[1..])
  {
  }

  /** One of the three characters that the engine does not tell apart. */
  predicate Blurred(c: char) {
    '\U{FFFD}' <= c <= '\U{FFFF}'
  }

  predicate Sharp(s: string) {
    forall c :: c in s ==> !Blurred(c)
  }

  lemma SharpIsSeen(c: char, d: char)
    requires !Blurred(c)
    ensures SameSeen(c, d) <==> SameUpToCase(d, c)
  {
  }

  /** Without a backslash the pattern matches exactly the keys that begin with the prefix. */
  lemma {:induction false} MatchesPrefix(prefix: string, key: string)
    requires '\\' !in prefix && Sharp(prefix)
    ensures Matches(Escape(prefix) + "%", key) <==> BeginsWith(key, prefix)
  {
    if prefix == "" {
      assert Escape(prefix) + "%" == "%";
      WildcardMatchesAll(key);
    } else {
      PatternStep(prefix);
      EscapedCharMatches(prefix[0], Escape(prefix[1..]) + "%", key);
      if key != "" {
        assert prefix[0] in prefix;
        SharpIsSeen(prefix[0], key[0]);
        MatchesPrefix(prefix[1..], key[1..]);
        BeginsStep(key, prefix);
      }
    }
  }

  lemma BeginsStep(key: string, prefix: string)
    requires key != "" && prefix != ""
    ensures BeginsWith(key, prefix) <==> SameUpToCase(key[0], prefix[0]) && BeginsWith(key[1..], prefix[1..])
  {
  }

  // ---------------------------------------------------------------- prefixes with a backslash

  /** A key the pattern of `t` matches although `t`, if it holds a backslash, is no prefix of it. */
  function Sample(t: string): (key: string)
    ensures |key| <= |t|
  {
    if t == "" then ""
    else if t[0] != '\\' then [t[0]] + Sample(t[1..])
    else if |t| == 1 then "%"
    else if t[1] == '%' then "\\" + Sample(t[2..])
    else if t[1] == '_' then "\\x" + Sample(t[2..])
    else [t[1]] + Sample(t[2..])
  }

  lemma {:induction false} SampleMatches(t: string)
    ensures Matches(Escape(t) + "%", Sample(t))
    decreases |t|, 1
  {
    if t == "" {
      assert Escape(t) + "%" == "%";
      WildcardMatchesAll("");
    } else if t[0] != '\\' {
      PatternStep(t);
      SampleMatches(t[1..]);
      assert Sample(t)[1..] == Sample(t[1..]);
      EscapedCharMatches(t[0], Escape(t[1..]) + "%", Sample(t));
    } else {
      SampleAfterBackslash(t);
    }
  }

  lemma SampleAfterBackslash(t: string)
    requires t != "" && t[0] == '\\'
    ensures Matches(Escape(t) + "%", Sample(t))
    decreases |t|, 0
  {
    PatternStep(t);
    var p := Escape(t) + "%";
    assert p == "\\" + (Escape(t[1..]) + "%");
    if |t| == 1 {
      assert t[1..] == "" && p == "\\%" && p[2..] == "" && Sample(t)[1..] == "";
    } else {
      PatternStep(t[1..]);
      var rest := Escape(t[2..]) + "%";
      assert t[1..][1..] == t[2..];
      SampleMatches(t[2..]);
      assert p == "\\" + EscapeChar(t[1]) + rest;
      if t[1] == '%' || t[1] == '_' {
        assert p[..2] == "\\\\" && p[2..] == [t[1]] + rest && (p[2..])[1..] == rest;
        assert Sample(t)[0] == '\\';
        if t[1] == '_' { assert Sample(t)[1..][1..] == Sample(t[2..]); } else { assert Sample(t)[1..] == Sample(t[2..]); }
      } else {
        assert p[1] == t[1] && p[2..] == rest && Sample(t)[1..] == Sample(t[2..]);
      }
    }
  }

  lemma {:induction false} SampleDoesNotBegin(t: string)
    requires '\\' in t
    ensures !BeginsWith(Sample(t), t)
  {
    if t[0] != '\\' {
      assert '\\' in t[1..];
      SampleDoesNotBegin(t[1..]);
      assert Sample(t)[1..] == Sample(t[1..]);
      BeginsStep(Sample(t), t);
    } else if |t| == 1 {
      assert Sample(t)[0] == '%';
    } else if t[1] == '_' {
      assert Sample(t)[1] == 'x';
    }
  }

  // ---------------------------------------------------------------- texts with a NUL

  lemma {:induction false} WholeWithoutNul(s: string)
    ensures UpToNul(s) == s <==> NUL !in s
    ensures |UpToNul(s)| <= |s| && UpToNul(UpToNul(s)) == UpToNul(s)
  {
    if s != "" { WholeWithoutNul(s[1..]); }
  }

  /** Cutting the key at a NUL does not change what it begins with. */
  lemma {:induction false} BeginsUpToNul(key: string, prefix: string)
    requires NUL !in prefix
    ensures BeginsWith(UpToNul(key), prefix) <==> BeginsWith(key, prefix)
  {
    if prefix != "" && key != "" {
      BeginsStep(key, prefix);
      if key[0] != NUL {
        BeginsUpToNul(key[1..], prefix[1..]);
        BeginsStep(UpToNul(key), prefix);
      }
    }
  }

  lemma {:induction false} EscapeAddsNoNul(s: string)
    requires NUL !in s
    ensures NUL !in Escape(s)
  {
    if s != "" { EscapeAddsNoNul(s[1..]); }
  }

  lemma {:induction false} SampleAddsNoNul(t: string)
    requires NUL !in t
    ensures NUL !in Sample(t)
  {
    if |t| > 1 {
      SampleAddsNoNul(t[1..]);
      SampleAddsNoNul(t[2..]);
    }
  }

  /** A prefix and what stands before its NUL select or miss the same queries, but only one begins with it. */
  lemma NulMisleads(prefix: string)
    requires NUL in prefix
    ensures Selects(prefix, prefix) <==> Selects(prefix, UpToNul(prefix))
    ensures BeginsWith(prefix, prefix) && !BeginsWith(UpToNul(prefix), prefix)
  {
    WholeWithoutNul(prefix);
  }

  // ---------------------------------------------------------------- characters read alike

  /** Another character that the engine reads as the same, if there is one. */
  function Twin(c: char): char {
    if c == '\U{FFFD}' then '\U{FFFE}' else if Blurred(c) then '\U{FFFD}' else c
  }

  function Twins(s: string): (t: string)
    ensures |t| == |s| && forall i :: 0 <= i < |s| ==> t[i] == Twin(s[i])
  {
    if s == "" then "" else [Twin(s[0])] + Twins(s[1..])
  }

  lemma {:induction false} TwinsMatchAlike(pattern: string, key: string)
    ensures Matches(pattern, key) <==> Matches(pattern, Twins(key))
    decreases |pattern| + |key|
  {
    if pattern != "" && key != "" {
      assert Twins(key)[1..] == Twins(key[1..]);
      TwinsMatchAlike(pattern, key[1..]);
      TwinsMatchAlike(pattern[1..], key[1..]);
      if |pattern| > 1 { TwinsMatchAlike(pattern[2..], key[1..]); }
    }
    if pattern != "" { TwinsMatchAlike(pattern[1..], key); }
  }

  lemma {:induction false} TwinsUpToNul(s: string)
    ensures UpToNul(Twins(s)) == Twins(UpToNul(s))
  {
    if s != "" {
      assert Twins(s)[1..] == Twins(s[1..]);
      TwinsUpToNul(s[1..]);
    }
  }

  /** A prefix and its twin look the same to the query, but only one begins with the prefix. */
  lemma BlurMisleads(prefix: string)
    requires !Sharp(prefix)
    ensures Selects(prefix, prefix) <==> Selects(prefix, Twins(prefix))
    ensures BeginsWith(prefix, prefix) && !BeginsWith(Twins(prefix), prefix)
  {
    TwinsUpToNul(prefix);
    TwinsMatchAlike(UpToNul(Pattern(prefix)), UpToNul(prefix));
    var i :| 0 <= i < |prefix| && Blurred(prefix[i]);
    assert !SameUpToCase(Twins(prefix)[i], prefix[i]);
  }

  /** What a prefix must be free of: the escape character, NUL and the characters read alike. */
  predicate Plain(prefix: string) {
    '\\' !in prefix && NUL !in prefix && Sharp(prefix)
  }

  /**
   * query_by_prefix selects exactly the keys that begin with the prefix, up to ASCII case, if and
   * only if the prefix is plain: the code escapes `%` and `_` but not the escape itself, and the
   * engine stops reading at a NUL and confuses three characters.
   */
  lemma PrefixQueryMeaning(prefix: string)
    ensures (forall key :: Selects(prefix, key) <==> BeginsWith(key, prefix)) <==> Plain(prefix)
  {
    TwoPassesAreOne(prefix);
    if NUL in prefix {
      NulMisleads(prefix);
    } else if !Sharp(prefix) {
      BlurMisleads(prefix);
    } else {
      EscapeAddsNoNul(prefix);
      WholeWithoutNul(Pattern(prefix));
      if '\\' in prefix {
        SampleMatches(prefix);
        SampleDoesNotBegin(prefix);
        SampleAddsNoNul(prefix);
        WholeWithoutNul(Sample(prefix));
      } else {
        forall key ensures Selects(prefix, key) <==> BeginsWith(key, prefix) {
          MatchesPrefix(prefix, UpToNul(key));
          BeginsUpToNul(key, prefix);
        }
      }
    }
  }
}
