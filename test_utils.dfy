/** tests/utils/index.ts, `isJwt`: the shape check the tests apply to the
    cookies they receive. */
module TestUtils {
  import opened Common

  /** `s.split(sep)` for a one-character separator: the maximal runs between
      separators, empty runs included. */
  function Split(s: string, sep: char): (parts: seq<string>)
    ensures |parts| >= 1
    decreases |s|
  {
    if s == [] then [""]
    else if s[0] == sep then [""] + Split(s[1..], sep)
    else
      var rest := Split(s[1..], sep);
      [[s[0]] + rest[0]] + rest[1..]
  }

  /** `parts.join(sep)`. */
  function Join(parts: seq<string>, sep: char): string
    requires |parts| >= 1
    decreases |parts|
  {
    if |parts| == 1 then parts[0] else parts[0] + [sep] + Join(parts[1..], sep)
  }

  /** How many times `c` occurs in `s`. */
  function Occurrences(s: string, c: char): nat
    decreases |s|
  {
    if s == [] then 0 else (if s[0] == c then 1 else 0) + Occurrences(s[1..], c)
  }

  /** Splitting yields one more part than there are separators. */
  lemma {:induction false} SplitLength(s: string, sep: char)
    ensures |Split(s, sep)| == Occurrences(s, sep) + 1
    decreases |s|
  {
    if s != [] {
      SplitLength(s[1..], sep);
    }
  }

  /** Splitting loses nothing: the parts hold no separator and joining them
      back gives the input. */
  lemma {:induction false} SplitJoin(s: string, sep: char)
    ensures forall i :: 0 <= i < |Split(s, sep)| ==> sep !in Split(s, sep)[i]
    ensures Join(Split(s, sep), sep) == s
    decreases |s|
  {
    if s != [] {
      SplitJoin(s[1..], sep);
      var rest := Split(s[1..], sep);
      if s[0] == sep {
        assert Split(s, sep)[1..] == rest;
      } else {
        var parts := Split(s, sep);
        assert parts[1..] == rest[1..];
        forall i | 0 <= i < |parts|
          ensures sep !in parts[i]
        {
          if i > 0 {
            assert parts[i] == rest[i];
          }
        }
        if |rest| > 1 {
          assert Join(rest, sep) == rest[0] + [sep] + Join(rest[1..], sep);
        }
      }
    }
  }

  lemma {:induction false} OccurrencesOfConcat(a: string, b: string, c: char)
    ensures Occurrences(a + b, c) == Occurrences(a, c) + Occurrences(b, c)
    decreases |a|
  {
    if a != [] {
      OccurrencesOfConcat(a[1..], b, c);
      assert (a + b)[0] == a[0] && (a + b)[1..] == a[1..] + b;
    } else {
      assert a + b == b;
    }
  }

  lemma {:induction false} NoOccurrences(s: string, c: char)
    requires c !in s
    ensures Occurrences(s, c) == 0
    decreases |s|
  {
    if s != [] {
      NoOccurrences(s[1..], c);
    }
  }

  /** `isJwt(token)`: false for null; otherwise split on '.', and false
      unless there are exactly three parts. Decoding a part from base64
      never throws, so the check ends there: the answer is true exactly
      when the token holds two dots. */
  function IsJwt(token: Option<string>): (b: bool)
    ensures token.None? ==> !b
    ensures token.Some? ==> (b <==> Occurrences(token.value, '.') == 2)
  {
    match token
    case None => false
    case Some(s) =>
      SplitLength(s, '.');
      |Split(s, '.')| == 3
  }

  /** Any compact serialisation `header.payload.signature` whose three
      segments are dot-free (as base64url text is) passes the check. */
  lemma CompactTokenIsJwt(header: string, payload: string, signature: string)
    requires '.' !in header && '.' !in payload && '.' !in signature
    ensures IsJwt(Some(header + "." + payload + "." + signature))
  {
    NoOccurrences(header, '.');
    NoOccurrences(payload, '.');
    NoOccurrences(signature, '.');
    OccurrencesOfConcat(header, ".", '.');
    OccurrencesOfConcat(header + ".", payload, '.');
    OccurrencesOfConcat(header + "." + payload, ".", '.');
    OccurrencesOfConcat(header + "." + payload + ".", signature, '.');
  }

  /** Only the dots count: two dots and nothing else is a "JWT". */
  lemma TwoDotsAreJwt()
    ensures IsJwt(Some(".."))
    ensures !IsJwt(Some("a.b")) && !IsJwt(Some("a.b.c.d"))
  {
  }

  lemma {:induction false} SplitWithoutSeparator(s: string, sep: char)
    requires sep !in s
    ensures Split(s, sep) == [s]
    decreases |s|
  {
    if s != [] {
      SplitWithoutSeparator(s[1..], sep);
      assert [s[0]] + s[1..] == s;
    }
  }

  /** A dot-free leading segment comes off as the first part. */
  lemma {:induction false} SplitAfterSegment(head: string, rest: string, sep: char)
    requires sep !in head
    ensures Split(head + [sep] + rest, sep) == [head] + Split(rest, sep)
    decreases |head|
  {
    var s := head + [sep] + rest;
    if head == [] {
      assert s[0] == sep && s[1..] == rest;
    } else {
      SplitAfterSegment(head[1..], rest, sep);
      assert s[0] == head[0] && s[1..] == head[1..] + [sep] + rest;
      assert [head[0]] + head[1..] == head;
    }
  }

  /** Characters of the base64url alphabet that JWT segments are written in. */
  predicate IsBase64UrlChar(c: char) {
    ('A' <= c <= 'Z') || ('a' <= c <= 'z') || ('0' <= c <= '9') || c == '-' || c == '_'
  }

  predicate IsSegment(part: string) {
    |part| > 0 && forall i :: 0 <= i < |part| ==> IsBase64UrlChar(part[i])
  }

  /** The check `isJwt` evidently means: three parts, each a non-empty run
      of base64url characters. */
  function IsJwtStrict(token: Option<string>): (b: bool)
    ensures b ==> IsJwt(token)
  {
    match token
    case None => false
    case Some(s) =>
      SplitLength(s, '.');
      var parts := Split(s, '.');
      |parts| == 3 && IsSegment(parts[0]) && IsSegment(parts[1]) && IsSegment(parts[2])
  }

  /** The strict check accepts every compact token and refuses "..". */
  lemma StrictCheckAcceptsCompactTokens(header: string, payload: string, signature: string)
    requires IsSegment(header) && IsSegment(payload) && IsSegment(signature)
    ensures IsJwtStrict(Some(header + "." + payload + "." + signature))
    ensures !IsJwtStrict(Some(".."))
  {
    assert !IsBase64UrlChar('.');
    SplitWithoutSeparator(signature, '.');
    SplitAfterSegment(payload, signature, '.');
    SplitAfterSegment(header, payload + "." + signature, '.');
    assert header + "." + payload + "." + signature == header + ['.'] + (payload + ['.'] + signature);
    SplitAfterSegment([], ".", '.');
    SplitAfterSegment([], "", '.');
    assert ".." == [] + ['.'] + ".";
    assert "." == [] + ['.'] + "";
  }
}
