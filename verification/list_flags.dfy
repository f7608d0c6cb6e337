/**
  Splitting of list-valued command-line flags (`--locale`, `--enable-rule`,
  `--disable-rule`): the value is cut at every `,` or `;` and each piece is
  trimmed of surrounding whitespace, as in bin/cli.js `splitByCommas`.
 */
module ListFlags {
  import opened Wrappers

  /** The characters of the regular expression `[,;]`. */
  predicate IsSeparator(c: char) {
    c == ',' || c == ';'
  }

  /** ECMAScript WhiteSpace and LineTerminator code points, which `trim` removes. */
  predicate IsWhitespace(c: char) {
    || c == '\t' || c == '\n' || c == '\U{000B}' || c == '\U{000C}' || c == '\r'
    || c == ' ' || c == '\U{00A0}' || c == '\U{1680}'
    || ('\U{2000}' <= c <= '\U{200A}')
    || c == '\U{2028}' || c == '\U{2029}' || c == '\U{202F}' || c == '\U{205F}'
    || c == '\U{3000}' || c == '\U{FEFF}'
  }

  predicate NoSeparator(s: string) {
    forall k :: 0 <= k < |s| ==> !IsSeparator(s[k])
  }

  predicate AllWhitespace(s: string) {
    forall k :: 0 <= k < |s| ==> IsWhitespace(s[k])
  }

  /** Neither the first nor the last character is whitespace. */
  predicate Trimmed(s: string) {
    |s| > 0 ==> !IsWhitespace(s[0]) && !IsWhitespace(s[|s| - 1])
  }

  /** Number of separator characters in `s`. */
  function SeparatorCount(s: string): nat {
    if |s| == 0 then 0 else (if IsSeparator(s[0]) then 1 else 0) + SeparatorCount(s[1..])
  }

  /** The separator characters of `s`, in order. */
  function Separators(s: string): (r: seq<char>)
    ensures |r| == SeparatorCount(s)
    ensures forall k :: 0 <= k < |r| ==> IsSeparator(r[k])
  {
    if |s| == 0 then []
    else if IsSeparator(s[0]) then [s[0]] + Separators(s[1..])
    else Separators(s[1..])
  }

  /** Drops the longest all-whitespace prefix. */
  function TrimStart(s: string): (r: string)
    ensures |r| <= |s| && r == s[|s| - |r|..]
    ensures AllWhitespace(s[..|s| - |r|])
    ensures |r| > 0 ==> !IsWhitespace(r[0])
  {
    if |s| > 0 && IsWhitespace(s[0]) then TrimStart(s[1..]) else s
  }

  /** Drops the longest all-whitespace suffix. */
  function TrimEnd(s: string): (r: string)
    ensures |r| <= |s| && r == s[..|r|]
    ensures AllWhitespace(s[|r|..])
    ensures |r| > 0 ==> !IsWhitespace(r[|r| - 1])
  {
    if |s| > 0 && IsWhitespace(s[|s| - 1]) then TrimEnd(s[..|s| - 1]) else s
  }

  /** Length of the whitespace prefix that `trim` removes. */
  function Lead(s: string): (n: nat)
    ensures n <= |s|
  {
    |s| - |TrimStart(s)|
  }

  /**
    `String.prototype.trim`: the slice of `s` left once the maximal
    whitespace prefix and suffix are removed.
   */
  function Trim(s: string): (r: string)
    ensures Trimmed(r)
    ensures Lead(s) + |r| <= |s| && r == s[Lead(s)..Lead(s) + |r|]
  {
    var t := TrimStart(s);
    assert t == s[Lead(s)..];
    var r := TrimEnd(t);
    assert |r| > 0 ==> r[0] == t[0];
    assert r == t[..|r|];
    r
  }

  /** What `trim` removes around the slice it keeps is whitespace only. */
  lemma TrimRemovesWhitespace(s: string)
    ensures AllWhitespace(s[..Lead(s)])
    ensures AllWhitespace(s[Lead(s) + |Trim(s)|..])
  {
  }

  /** The pieces between separators, as a split on the separator class returns them. */
  function Split(s: string): (r: seq<string>)
    ensures |r| == SeparatorCount(s) + 1
    ensures forall i :: 0 <= i < |r| ==> NoSeparator(r[i])
  {
    if |s| == 0 then [""]
    else
      var rest := Split(s[1..]);
      if IsSeparator(s[0]) then [""] + rest
      else [[s[0]] + rest[0]] + rest[1..]
  }

  /** Puts the pieces back together with `seps[i]` between pieces `i` and `i + 1`. */
  function Join(pieces: seq<string>, seps: seq<char>): string
    requires |pieces| == |seps| + 1
  {
    if |seps| == 0 then pieces[0]
    else pieces[0] + [seps[0]] + Join(pieces[1..], seps[1..])
  }

  /**
    `splitByCommas` (bin/cli.js:14): an undefined value is treated as the
    empty string, which is cut at every separator, and every piece is trimmed.
   */
  function SplitByCommas(str: Option<string>): (r: seq<string>)
    ensures var s := if str.Some? then str.value else "";
            && |r| == SeparatorCount(s) + 1
            && (forall i :: 0 <= i < |r| ==> r[i] == Trim(Split(s)[i]))
    ensures forall i :: 0 <= i < |r| ==> NoSeparator(r[i]) && Trimmed(r[i])
    ensures str.None? || str == Some("") ==> r == [""]
  {
    var pieces := Split(if str.Some? then str.value else "");
    var r := seq(|pieces|, i requires 0 <= i < |pieces| => Trim(pieces[i]));
    forall i | 0 <= i < |r|
      ensures NoSeparator(r[i])
    {
      TrimKeepsNoSeparator(pieces[i]);
    }
    r
  }

  /** A trimmed piece is a slice of the original, so it gains no separator. */
  lemma TrimKeepsNoSeparator(s: string)
    requires NoSeparator(s)
    ensures NoSeparator(Trim(s))
  {
  }

  /** Trimming twice is trimming once. */
  lemma TrimIdempotent(s: string)
    ensures Trim(Trim(s)) == Trim(s)
  {
  }

  /** Cutting at a leading run of non-separators only extends the first piece. */
  lemma {:induction false} SplitPrefix(p: string, t: string)
    requires NoSeparator(p)
    ensures Split(p + t) == [p + Split(t)[0]] + Split(t)[1..]
    decreases |p|
  {
    if |p| > 0 {
      assert (p + t)[1..] == p[1..] + t;
      SplitPrefix(p[1..], t);
      assert [p[0]] + (p[1..] + Split(t)[0]) == p + Split(t)[0];
    } else {
      assert p + t == t;
      assert p + Split(t)[0] == Split(t)[0];
      assert [Split(t)[0]] + Split(t)[1..] == Split(t);
    }
  }

  /** Splitting and re-joining with the removed separators gives the input back. */
  lemma {:induction false} JoinSplit(s: string)
    ensures Join(Split(s), Separators(s)) == s
    decreases |s|
  {
    if |s| > 0 {
      var rest := Split(s[1..]);
      var seps := Separators(s[1..]);
      JoinSplit(s[1..]);
      assert s == [s[0]] + s[1..];
      if IsSeparator(s[0]) {
        assert Split(s) == [""] + rest;
        assert Separators(s) == [s[0]] + seps;
        assert ([""] + rest)[1..] == rest;
      } else {
        assert Split(s) == [[s[0]] + rest[0]] + rest[1..];
        assert Separators(s) == seps;
        JoinConsFirst(s[0], rest, seps);
      }
    }
  }

  /** Prefixing the first piece prefixes the joined text. */
  lemma JoinConsFirst(c: char, pieces: seq<string>, seps: seq<char>)
    requires |pieces| == |seps| + 1
    ensures Join([[c] + pieces[0]] + pieces[1..], seps) == [c] + Join(pieces, seps)
  {
  }

  /**
    The pieces are the MAXIMAL separator-free runs: any separator-free pieces
    joined with separators are exactly what splitting the joined text gives.
   */
  lemma {:induction false} SplitJoin(pieces: seq<string>, seps: seq<char>)
    requires |pieces| == |seps| + 1
    requires forall i :: 0 <= i < |pieces| ==> NoSeparator(pieces[i])
    requires forall k :: 0 <= k < |seps| ==> IsSeparator(seps[k])
    ensures Split(Join(pieces, seps)) == pieces
    decreases |seps|
  {
    if |seps| == 0 {
      SplitPrefix(pieces[0], "");
      assert pieces[0] + "" == pieces[0];
    } else {
      var tail := Join(pieces[1..], seps[1..]);
      SplitJoin(pieces[1..], seps[1..]);
      var t := [seps[0]] + tail;
      assert t[1..] == tail;
      assert Split(t) == [""] + pieces[1..];
      SplitPrefix(pieces[0], t);
      assert pieces[0] + [seps[0]] + tail == pieces[0] + t;
      assert pieces[0] + "" == pieces[0];
      assert [pieces[0]] + pieces[1..] == pieces;
    }
  }
}
