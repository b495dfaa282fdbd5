/** The JavaScript string operations the source uses, on strings of Unicode characters. */
module Text {

  /** The characters matched by `\s` in a JavaScript regular expression and removed by
      `String.prototype.trim`: ECMAScript's WhiteSpace and LineTerminator characters. */
  predicate IsWhitespace(c: char) {
    if c as int < 0xA0 then 9 <= c as int <= 13 || c == ' '
    else WideWhitespace(c as int)
  }

  /** The whitespace characters from U+00A0 up. */
  predicate WideWhitespace(n: int) {
    || n == 0xA0 || n == 0x1680 || (0x2000 <= n <= 0x200A)
    || n == 0x2028 || n == 0x2029 || n == 0x202F || n == 0x205F || n == 0x3000 || n == 0xFEFF
  }

  predicate IsUpperAscii(c: char) { 'A' <= c <= 'Z' }

  /** `toLowerCase` on one character, for the ASCII letters. */
  function LowerChar(c: char): (d: char)
    ensures !IsUpperAscii(d)
    ensures IsWhitespace(d) <==> IsWhitespace(c)
    ensures !IsUpperAscii(c) ==> d == c
  {
    if IsUpperAscii(c) then (c as int + 32) as char else c
  }

  /** `String.prototype.toLowerCase`, for the ASCII letters. */
  function ToLower(s: string): (r: string)
    ensures |r| == |s|
    ensures forall i :: 0 <= i < |s| ==> r[i] == LowerChar(s[i])
  {
    if s == [] then [] else [LowerChar(s[0])] + ToLower(s[1..])
  }

  /** `s` without its leading whitespace. */
  function DropWhitespace(s: string): (r: string)
    ensures |r| <= |s|
    ensures s != [] && IsWhitespace(s[0]) ==> |r| < |s|
    ensures r == [] || !IsWhitespace(r[0])
  {
    if s != [] && IsWhitespace(s[0]) then DropWhitespace(s[1..]) else s
  }

  /** What `DropWhitespace` keeps is the tail of `s`. */
  lemma {:induction false} DropWhitespaceSuffix(s: string)
    ensures DropWhitespace(s) == s[|s| - |DropWhitespace(s)|..]
  {
    if s != [] && IsWhitespace(s[0]) {
      var r := DropWhitespace(s[1..]);
      DropWhitespaceSuffix(s[1..]);
      assert s[1..][|s| - 1 - |r|..] == s[|s| - |r|..];
    }
  }

  /** What `DropWhitespace` removes is whitespace. */
  lemma {:induction false} DropWhitespaceDropsWhitespace(s: string)
    ensures forall i :: 0 <= i < |s| - |DropWhitespace(s)| ==> IsWhitespace(s[i])
  {
    if s != [] && IsWhitespace(s[0]) {
      var t := s[1..];
      DropWhitespaceDropsWhitespace(t);
      assert DropWhitespace(s) == DropWhitespace(t);
      forall i | 1 <= i < |s| - |DropWhitespace(s)| ensures IsWhitespace(s[i]) {
        assert s[i] == t[i - 1];
        assert IsWhitespace(t[i - 1]);
      }
    }
  }

  /** `s.replace(/\s+/g, '-')`: every maximal run of whitespace becomes one hyphen. */
  function HyphenateRuns(s: string): (r: string)
    ensures forall i :: 0 <= i < |r| ==> !IsWhitespace(r[i])
    ensures |r| <= |s|
    decreases |s|
  {
    if s == [] then []
    else if IsWhitespace(s[0]) then
      var rest := HyphenateRuns(DropWhitespace(s));
      assert !IsWhitespace('-');
      "-" + rest
    else
      var rest := HyphenateRuns(s[1..]);
      [s[0]] + rest
  }

  /** The slug the relational store derives on every read: `name.toLowerCase().replace(/\s+/g,
      '-')`. */
  function Slugify(s: string): (r: string)
    ensures forall i :: 0 <= i < |r| ==> !IsWhitespace(r[i]) && !IsUpperAscii(r[i])
  {
    var r := HyphenateRuns(ToLower(s));
    SlugIsLower(ToLower(s));
    r
  }

  /** Hyphenating keeps a string free of upper-case letters, since it only adds `-`. */
  lemma {:induction false} SlugIsLower(s: string)
    requires forall i :: 0 <= i < |s| ==> !IsUpperAscii(s[i])
    ensures forall i :: 0 <= i < |HyphenateRuns(s)| ==> !IsUpperAscii(HyphenateRuns(s)[i])
    decreases |s|
  {
    if s == [] {
    } else if IsWhitespace(s[0]) {
      var d := DropWhitespace(s);
      DropWhitespaceSuffix(s);
      forall i | 0 <= i < |d| ensures !IsUpperAscii(d[i]) {
        assert d[i] == s[|s| - |d| + i];
      }
      SlugIsLower(d);
    } else {
      SlugIsLower(s[1..]);
    }
  }

  /** A string without whitespace has no run to replace. */
  lemma {:induction false} HyphenateNoWhitespace(s: string)
    requires forall i :: 0 <= i < |s| ==> !IsWhitespace(s[i])
    ensures HyphenateRuns(s) == s
    decreases |s|
  {
    if s != [] {
      HyphenateNoWhitespace(s[1..]);
    }
  }

  /** A string of lower-case letters is its own lower-case form. */
  lemma {:induction false} ToLowerOfLower(s: string)
    requires forall i :: 0 <= i < |s| ==> !IsUpperAscii(s[i])
    ensures ToLower(s) == s
  {
    if s != [] {
      ToLowerOfLower(s[1..]);
    }
  }

  /** Slugs are fixed points: deriving a slug from a slug returns it unchanged. */
  lemma SlugifyIdempotent(s: string)
    ensures Slugify(Slugify(s)) == Slugify(s)
  {
    var r := Slugify(s);
    ToLowerOfLower(r);
    HyphenateNoWhitespace(r);
  }

  /** Lower-casing a concatenation lower-cases each part. */
  lemma {:induction false} ToLowerAppend(x: string, y: string)
    ensures ToLower(x + y) == ToLower(x) + ToLower(y)
  {
    if x == [] {
      assert x + y == y;
    } else {
      assert (x + y)[0] == x[0];
      assert (x + y)[1..] == x[1..] + y;
      ToLowerAppend(x[1..], y);
    }
  }

  /** Lower-casing a word, a run of whitespace and a rest keeps each one's shape: the word
      without whitespace, the run all whitespace, the rest not starting with whitespace. */
  lemma ToLowerShapes(a: string, w: string, b: string)
    requires forall i :: 0 <= i < |a| ==> !IsWhitespace(a[i])
    requires w != [] && forall i :: 0 <= i < |w| ==> IsWhitespace(w[i])
    requires b == [] || !IsWhitespace(b[0])
    ensures forall i :: 0 <= i < |ToLower(a)| ==> !IsWhitespace(ToLower(a)[i])
    ensures ToLower(w) != [] && forall i :: 0 <= i < |ToLower(w)| ==> IsWhitespace(ToLower(w)[i])
    ensures ToLower(b) == [] || !IsWhitespace(ToLower(b)[0])
  {
  }

  /** Skipping a run of whitespace in front of a string that does not start with whitespace
      leaves that string. */
  lemma {:induction false} DropRun(w: string, b: string)
    requires forall i :: 0 <= i < |w| ==> IsWhitespace(w[i])
    requires b == [] || !IsWhitespace(b[0])
    ensures DropWhitespace(w + b) == b
    decreases |w|
  {
    if w == [] {
      assert w + b == b;
    } else {
      assert (w + b)[0] == w[0];
      assert (w + b)[1..] == w[1..] + b;
      DropRun(w[1..], b);
    }
  }

  /** A word without whitespace slugs to its lower-case form. */
  lemma SlugOfWord(a: string)
    requires forall i :: 0 <= i < |a| ==> !IsWhitespace(a[i])
    ensures Slugify(a) == ToLower(a)
  {
    ToLowerShapes(a, " ", []);
    HyphenateNoWhitespace(ToLower(a));
  }

  /** A run of whitespace in front of a rest that does not start with whitespace becomes one
      hyphen. */
  lemma HyphenateRun(w: string, b: string)
    requires w != [] && forall i :: 0 <= i < |w| ==> IsWhitespace(w[i])
    requires b == [] || !IsWhitespace(b[0])
    ensures HyphenateRuns(w + b) == "-" + HyphenateRuns(b)
  {
    DropRun(w, b);
    assert (w + b)[0] == w[0];
  }

  /** Concatenation is associative. */
  lemma Associative(x: string, y: string, z: string)
    ensures x + (y + z) == x + y + z
  {
  }

  /** Hyphenating a word, a run of whitespace and a rest that does not start with whitespace
      keeps the word and turns the whole run into one hyphen. */
  lemma HyphenateAcrossRun(a: string, w: string, b: string)
    requires forall i :: 0 <= i < |a| ==> !IsWhitespace(a[i])
    requires w != [] && forall i :: 0 <= i < |w| ==> IsWhitespace(w[i])
    requires b == [] || !IsWhitespace(b[0])
    ensures HyphenateRuns(a + w + b) == a + ("-" + HyphenateRuns(b))
  {
    HyphenateRun(w, b);
    Associative(a, w, b);
    HyphenateWordFirst(a, w + b);
  }

  /** Lower-casing three pieces lower-cases each. */
  lemma ToLowerPieces(a: string, w: string, b: string)
    ensures ToLower(a + w + b) == ToLower(a) + ToLower(w) + ToLower(b)
  {
    ToLowerAppend(a + w, b);
    ToLowerAppend(a, w);
  }

  /** A word, a run of whitespace and the rest of the text: the word is lower-cased, the whole
      run becomes one hyphen, and the rest is slugged on its own. */
  lemma SlugAcrossRun(a: string, w: string, b: string)
    requires forall i :: 0 <= i < |a| ==> !IsWhitespace(a[i])
    requires w != [] && forall i :: 0 <= i < |w| ==> IsWhitespace(w[i])
    requires b == [] || !IsWhitespace(b[0])
    ensures Slugify(a + w + b) == ToLower(a) + "-" + Slugify(b)
  {
    ToLowerPieces(a, w, b);
    ToLowerShapes(a, w, b);
    HyphenateAcrossRun(ToLower(a), ToLower(w), ToLower(b));
    Associative(ToLower(a), "-", Slugify(b));
  }

  /** Two words separated by one space become the two lower-cased words joined by a hyphen. */
  lemma SlugOfTwoWords(a: string, b: string)
    requires forall i :: 0 <= i < |a| ==> !IsWhitespace(a[i])
    requires forall i :: 0 <= i < |b| ==> !IsWhitespace(b[i])
    ensures Slugify(a + " " + b) == ToLower(a) + "-" + ToLower(b)
  {
    SlugAcrossRun(a, " ", b);
    SlugOfWord(b);
  }

  /** A category named "Clean Energy" reads back as "clean-energy". */
  lemma CleanEnergySlug()
    ensures Slugify("Clean Energy") == "clean-energy"
  {
    SlugOfTwoWords("Clean", "Energy");
    assert "Clean" + " " + "Energy" == "Clean Energy";
    assert ToLower("Clean") == "clean";
    assert ToLower("Energy") == "energy";
    assert "clean" + "-" + "energy" == "clean-energy";
  }

  /** A leading word without whitespace passes through hyphenation unchanged. */
  lemma {:induction false} HyphenateWordFirst(word: string, rest: string)
    requires forall i :: 0 <= i < |word| ==> !IsWhitespace(word[i])
    ensures HyphenateRuns(word + rest) == word + HyphenateRuns(rest)
  {
    if word == [] {
      assert word + rest == rest;
    } else {
      assert (word + rest)[0] == word[0];
      assert (word + rest)[1..] == word[1..] + rest;
      HyphenateWordFirst(word[1..], rest);
    }
  }

  /** `s.startsWith(prefix)`. */
  predicate StartsWith(s: string, prefix: string) {
    |prefix| <= |s| && s[..|prefix|] == prefix
  }

  /** `s.includes(sub)`. */
  predicate Contains(s: string, sub: string)
    decreases |s|
  {
    StartsWith(s, sub) || (s != [] && Contains(s[1..], sub))
  }

  /** `s.includes(sub)` holds exactly when `sub` occurs at some position of `s`. */
  lemma {:induction false} ContainsAt(s: string, sub: string, k: nat)
    requires k + |sub| <= |s| && s[k..k + |sub|] == sub
    ensures Contains(s, sub)
    decreases k
  {
    if k > 0 {
      assert s[1..][k - 1..k - 1 + |sub|] == sub;
      ContainsAt(s[1..], sub, k - 1);
    }
  }

  /** `s.trimStart()`. */
  function TrimStart(s: string): (r: string)
    ensures r == [] || !IsWhitespace(r[0])
  {
    DropWhitespace(s)
  }

  /** `s.trimEnd()`. */
  function TrimEnd(s: string): (r: string)
    ensures |r| <= |s|
    ensures r == [] || !IsWhitespace(r[|r| - 1])
    ensures r == s[..|r|]
  {
    if s != [] && IsWhitespace(s[|s| - 1]) then TrimEnd(s[..|s| - 1]) else s
  }

  /** What `TrimEnd` removes is whitespace. */
  lemma {:induction false} TrimEndDropsWhitespace(s: string)
    ensures forall i :: |TrimEnd(s)| <= i < |s| ==> IsWhitespace(s[i])
  {
    if s != [] && IsWhitespace(s[|s| - 1]) {
      var t := s[..|s| - 1];
      TrimEndDropsWhitespace(t);
      assert TrimEnd(s) == TrimEnd(t);
      forall i | |TrimEnd(s)| <= i < |t| ensures IsWhitespace(s[i]) {
        assert s[i] == t[i];
      }
    }
  }

  /** `s.trim()`: neither end of the result is whitespace, and it is a piece of `s`. */
  function Trim(s: string): (r: string)
    ensures TrimOffset(s) + |r| <= |s|
    ensures r == [] || (!IsWhitespace(r[0]) && !IsWhitespace(r[|r| - 1]))
    ensures r == s[TrimOffset(s)..TrimOffset(s) + |r|]
  {
    var a := DropWhitespace(s);
    var r := TrimEnd(a);
    DropWhitespaceSuffix(s);
    assert r == [] || r[0] == a[0];
    assert s[TrimOffset(s)..][..|r|] == s[TrimOffset(s)..TrimOffset(s) + |r|];
    r
  }

  /** `trim` removes only whitespace: what lies before and after the result in `s` is whitespace. */
  lemma TrimRemovesWhitespace(s: string)
    ensures forall i :: 0 <= i < TrimOffset(s) ==> IsWhitespace(s[i])
    ensures forall i :: TrimOffset(s) + |Trim(s)| <= i < |s| ==> IsWhitespace(s[i])
  {
    var a := DropWhitespace(s);
    DropWhitespaceDropsWhitespace(s);
    DropWhitespaceSuffix(s);
    TrimEndDropsWhitespace(a);
    forall i | TrimOffset(s) + |Trim(s)| <= i < |s| ensures IsWhitespace(s[i]) {
      assert s[i] == a[i - TrimOffset(s)];
    }
  }

  /** How many characters `trim` removes from the front of `s`. */
  function TrimOffset(s: string): nat
    ensures TrimOffset(s) <= |s|
  {
    |s| - |DropWhitespace(s)|
  }

  /** Trimming a string with no whitespace at either end leaves it unchanged. */
  lemma TrimNoEdges(s: string)
    requires s == [] || (!IsWhitespace(s[0]) && !IsWhitespace(s[|s| - 1]))
    ensures Trim(s) == s
  {
  }

  /** `s.split(sep)` for a one-character separator. There is always at least one piece. */
  function Split(s: string, sep: char): (r: seq<string>)
    ensures |r| >= 1
    ensures forall i :: 0 <= i < |r| ==> sep !in r[i]
  {
    if s == [] then [[]]
    else
      var rest := Split(s[1..], sep);
      if s[0] == sep then [[]] + rest
      else [[s[0]] + rest[0]] + rest[1..]
  }

  /** `pieces.join(sep)`. */
  function Join(pieces: seq<string>, sep: string): string {
    if pieces == [] then []
    else if |pieces| == 1 then pieces[0]
    else pieces[0] + sep + Join(pieces[1..], sep)
  }

  /** Splitting loses nothing: joining the pieces with the separator gives back the text. */
  lemma {:induction false} SplitJoin(s: string, sep: char)
    ensures Join(Split(s, sep), [sep]) == s
  {
    if s != [] {
      var rest := Split(s[1..], sep);
      SplitJoin(s[1..], sep);
      if s[0] == sep {
        assert Split(s, sep) == [[]] + rest;
        assert ([[]] + rest)[1..] == rest;
      } else {
        var r := Split(s, sep);
        assert r == [[s[0]] + rest[0]] + rest[1..];
        if |rest| == 1 {
          assert r == [[s[0]] + rest[0]];
        } else {
          assert r[1..] == rest[1..];
          assert Join(rest, [sep]) == rest[0] + [sep] + Join(rest[1..], [sep]);
        }
      }
    }
  }

  /** A leading piece without the separator joins the first piece of what follows it. */
  lemma {:induction false} SplitWordFirst(w: string, t: string, sep: char)
    requires sep !in w
    ensures Split(w + t, sep) == [w + Split(t, sep)[0]] + Split(t, sep)[1..]
    decreases |w|
  {
    if w == [] {
      var r := Split(t, sep);
      assert w + t == t && w + r[0] == r[0];
      assert [r[0]] + r[1..] == r;
    } else {
      assert (w + t)[0] == w[0];
      assert (w + t)[1..] == w[1..] + t;
      SplitWordFirst(w[1..], t, sep);
      assert [w[0]] + (w[1..] + Split(t, sep)[0]) == w + Split(t, sep)[0];
    }
  }

  /** A piece without the separator, the separator and the rest: the piece comes first, then
      the pieces of the rest. */
  lemma SplitAtSeparator(w: string, t: string, sep: char)
    requires sep !in w
    ensures Split(w + [sep] + t, sep) == [w] + Split(t, sep)
  {
    var rest := [sep] + t;
    assert rest[0] == sep && rest[1..] == t;
    assert Split(rest, sep) == [[]] + Split(t, sep);
    assert w + [sep] + t == w + rest;
    SplitWordFirst(w, rest, sep);
    assert w + [] == w;
  }

  /** Joining pieces that do not contain the separator and splitting again gives the pieces back. */
  lemma {:induction false} JoinSplit(pieces: seq<string>, sep: char)
    requires |pieces| >= 1
    requires forall i :: 0 <= i < |pieces| ==> sep !in pieces[i]
    ensures Split(Join(pieces, [sep]), sep) == pieces
    decreases |pieces|
  {
    if |pieces| == 1 {
      SplitWordFirst(pieces[0], [], sep);
      assert pieces[0] + [] == pieces[0];
    } else {
      JoinSplit(pieces[1..], sep);
      SplitAtSeparator(pieces[0], Join(pieces[1..], [sep]), sep);
      assert [pieces[0]] + pieces[1..] == pieces;
    }
  }

  /** `s.length` in JavaScript: the number of UTF-16 code units, two for a character outside
      the Basic Multilingual Plane. */
  function Utf16Length(s: string): (n: nat)
    ensures |s| <= n <= 2 * |s|
  {
    if s == [] then 0 else (if s[0] as int > 0xFFFF then 2 else 1) + Utf16Length(s[1..])
  }
}
