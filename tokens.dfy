/**
 * The string helpers the telemetry parser is built from: Python's `s.split(sep)` for a
 * one-character separator, the first space-separated token, the last `/` component of a
 * path, and `s.split()` on runs of whitespace.
 */
module Tokens {

  /** Python's whitespace, as `str.split()` with no argument and `int()`/`float()` see it. */
  predicate IsSpace(c: char) {
    var k := c as int;
    (9 <= k <= 13) || (28 <= k <= 32) || k == 0x85 || k == 0xA0 || k == 0x1680
    || (0x2000 <= k <= 0x200A) || k == 0x2028 || k == 0x2029 || k == 0x202F
    || k == 0x205F || k == 0x3000
  }

  /** A non-empty piece of text with no whitespace in it: what `str.split()` yields. */
  predicate IsToken(w: string) {
    w != [] && forall j :: 0 <= j < |w| ==> !IsSpace(w[j])
  }

  /** Two tokens written side by side form one token. */
  lemma TokenConcat(x: string, y: string)
    requires IsToken(x) && IsToken(y)
    ensures IsToken(x + y)
  {
    forall j | 0 <= j < |x + y|
      ensures !IsSpace((x + y)[j])
    {
      if j < |x| {
        assert (x + y)[j] == x[j];
      } else {
        assert (x + y)[j] == y[j - |x|];
      }
    }
  }

  /** Glues pieces back together with one separator between neighbours. */
  function Join(parts: seq<string>, sep: char): string
    requires |parts| >= 1
  {
    if |parts| == 1 then parts[0] else parts[0] + [sep] + Join(parts[1..], sep)
  }

  /**
   * Python's `s.split(sep)`: the pieces between separators, empty pieces included.
   * Splitting and re-joining gives back the original text.
   */
  function Split(s: string, sep: char): (parts: seq<string>)
    ensures |parts| >= 1
    ensures forall i :: 0 <= i < |parts| ==> sep !in parts[i]
    ensures Join(parts, sep) == s
  {
    if s == [] then [""]
    else
      var rest := Split(s[1..], sep);
      if s[0] == sep then
        assert ([""] + rest)[1..] == rest;
        [""] + rest
      else
        var parts := [[s[0]] + rest[0]] + rest[1..];
        assert parts[1..] == rest[1..];
        assert |rest| > 1 ==> Join(rest, sep) == rest[0] + [sep] + Join(rest[1..], sep);
        parts
  }

  lemma {:induction false} SplitNoSeparator(w: string, sep: char)
    requires sep !in w
    ensures Split(w, sep) == [w]
  {
    if w != [] {
      SplitNoSeparator(w[1..], sep);
    }
  }

  /** Splitting at one separator splits the text into the pieces of its two sides. */
  lemma {:induction false} SplitConcat(x: string, sep: char, y: string)
    ensures Split(x + [sep] + y, sep) == Split(x, sep) + Split(y, sep)
  {
    if x == [] {
      assert (x + [sep] + y)[1..] == y;
    } else {
      assert (x + [sep] + y)[1..] == x[1..] + [sep] + y;
      SplitConcat(x[1..], sep, y);
    }
  }

  /** The other half of the round trip: pieces free of the separator survive a join and a split. */
  lemma {:induction false} SplitJoin(parts: seq<string>, sep: char)
    requires |parts| >= 1
    requires forall i :: 0 <= i < |parts| ==> sep !in parts[i]
    ensures Split(Join(parts, sep), sep) == parts
  {
    if |parts| == 1 {
      SplitNoSeparator(parts[0], sep);
    } else {
      SplitJoin(parts[1..], sep);
      SplitConcat(parts[0], sep, Join(parts[1..], sep));
      SplitNoSeparator(parts[0], sep);
    }
  }

  lemma {:induction false} JoinLast(parts: seq<string>, sep: char)
    requires |parts| >= 2
    ensures Join(parts, sep) == Join(parts[..|parts| - 1], sep) + [sep] + parts[|parts| - 1]
  {
    if |parts| > 2 {
      JoinLast(parts[1..], sep);
      assert parts[1..][..|parts| - 2] == parts[..|parts| - 1][1..];
    }
  }

  /**
   * `text.split(" ")[0]`: the longest prefix of the text without a space; it is the whole
   * text or is followed by a space.
   */
  function FirstToken(s: string): (tok: string)
    ensures |tok| <= |s| && tok == s[..|tok|]
    ensures ' ' !in tok
    ensures |tok| == |s| || s[|tok|] == ' '
  {
    var parts := Split(s, ' ');
    assert |parts| > 1 ==> s == parts[0] + [' '] + Join(parts[1..], ' ');
    parts[0]
  }

  /**
   * `path.split("/")[-1]`: the longest suffix of the path without a `/`; it is the whole
   * path or is preceded by a `/`.
   */
  function LastComponent(s: string): (name: string)
    ensures |name| <= |s| && name == s[|s| - |name|..]
    ensures '/' !in name
    ensures |name| == |s| || s[|s| - |name| - 1] == '/'
  {
    var parts := Split(s, '/');
    var name := parts[|parts| - 1];
    if |parts| >= 2 then (JoinLast(parts, '/'); name) else name
  }

  /** The file name of a path is what comes after its last `/`. */
  lemma PathRoundTrip(dir: string, name: string)
    requires '/' !in name
    ensures LastComponent(dir + "/" + name) == name
  {
    SplitConcat(dir, '/', name);
    SplitNoSeparator(name, '/');
  }

  /** The leading run of non-whitespace characters. */
  function Word(s: string): (w: string)
    ensures |w| <= |s| && w == s[..|w|]
    ensures forall j :: 0 <= j < |w| ==> !IsSpace(w[j])
    ensures |w| == |s| || IsSpace(s[|w|])
    ensures s != [] && !IsSpace(s[0]) ==> |w| >= 1
  {
    if s == [] || IsSpace(s[0]) then [] else [s[0]] + Word(s[1..])
  }

  /** Python's `s.split()`: the maximal runs of non-whitespace, leading and trailing blanks dropped. */
  function Words(s: string): (ws: seq<string>)
    ensures forall i :: 0 <= i < |ws| ==> IsToken(ws[i])
    decreases |s|
  {
    if s == [] then []
    else if IsSpace(s[0]) then
      Words(s[1..])
    else
      var w := Word(s);
      [w] + Words(s[|w|..])
  }

  /** Tokens joined with single spaces, as `" ".join(ws)`. */
  function Unwords(ws: seq<string>): string {
    if ws == [] then "" else if |ws| == 1 then ws[0] else ws[0] + " " + Unwords(ws[1..])
  }

  lemma {:induction false} WordOfToken(w: string, rest: string)
    requires IsToken(w)
    requires rest == [] || IsSpace(rest[0])
    ensures Word(w + rest) == w
  {
    if |w| > 1 {
      assert (w + rest)[1..] == w[1..] + rest;
      WordOfToken(w[1..], rest);
      assert [w[0]] + w[1..] == w;
    } else {
      assert (w + rest)[1..] == rest;
    }
  }

  /** A token followed by a blank (or by nothing) is the first word. */
  lemma WordsCons(w: string, rest: string)
    requires IsToken(w)
    requires rest == [] || IsSpace(rest[0])
    ensures Words(w + rest) == [w] + Words(rest)
  {
    WordOfToken(w, rest);
    assert (w + rest)[|w|..] == rest;
  }

  lemma {:induction false} WordsSkipsBlanks(pad: string, t: string)
    requires forall j :: 0 <= j < |pad| ==> IsSpace(pad[j])
    ensures Words(pad + t) == Words(t)
  {
    if pad == [] {
      assert pad + t == t;
    } else {
      assert (pad + t)[1..] == pad[1..] + t;
      WordsSkipsBlanks(pad[1..], t);
    }
  }

  /** Blanks alone split into no words. */
  lemma WordsOfBlanks(blanks: string)
    requires forall j :: 0 <= j < |blanks| ==> IsSpace(blanks[j])
    ensures Words(blanks) == []
  {
    WordsSkipsBlanks(blanks, "");
    assert blanks + "" == blanks;
  }

  /** A text splits into no words exactly when it is all whitespace. */
  lemma {:induction false} WordsEmpty(s: string)
    ensures Words(s) == [] <==> forall j :: 0 <= j < |s| ==> IsSpace(s[j])
    decreases |s|
  {
    if s != [] && IsSpace(s[0]) {
      WordsEmpty(s[1..]);
      assert forall j :: 1 <= j < |s| ==> s[1..][j - 1] == s[j];
    }
  }

  /** A token, a single space and the rest: the token is the first word and the rest splits on its own. */
  lemma WordsStep(w: string, others: string, tail: string)
    requires IsToken(w)
    ensures Words(w + " " + others + tail) == [w] + Words(others + tail)
  {
    WordsSkipsBlanks(" ", others + tail);
    ConcatAssoc(w + " ", others, tail);
    ConcatAssoc(w, " ", others + tail);
    WordsCons(w, " " + (others + tail));
  }

  /** A text made of whitespace only (possibly empty). */
  predicate Blank(s: string) {
    forall j :: 0 <= j < |s| ==> IsSpace(s[j])
  }

  /** A token, then a run of one or more blanks: the token is the first word and the rest splits on its own. */
  lemma WordsSeparated(w: string, sep: string, rest: string)
    requires IsToken(w) && Blank(sep) && sep != []
    ensures Words(w + sep + rest) == [w] + Words(rest)
  {
    ConcatAssoc(w, sep, rest);
    WordsCons(w, sep + rest);
    WordsSkipsBlanks(sep, rest);
  }

  /** Words, each followed by its run of blanks: `ws[0] + seps[0] + ws[1] + seps[1] + ...`. */
  function Spaced(ws: seq<string>, seps: seq<string>): string
    requires |seps| == |ws|
  {
    if ws == [] then "" else ws[0] + seps[0] + Spaced(ws[1..], seps[1..])
  }

  /** The runs of blanks between words are non-empty; the one after the last word may be empty. */
  predicate Separators(seps: seq<string>) {
    (forall i :: 0 <= i < |seps| ==> Blank(seps[i]))
    && forall i :: 0 <= i < |seps| - 1 ==> seps[i] != []
  }

  /**
   * `str.split()` of tokens separated by any runs of blanks, with any blanks before the first and
   * after the last, gives the tokens back: this is how every text splits.
   */
  lemma WordsSpaced(ws: seq<string>, seps: seq<string>, pad: string)
    requires |seps| == |ws| && Separators(seps) && Blank(pad)
    requires forall i :: 0 <= i < |ws| ==> IsToken(ws[i])
    ensures Words(pad + Spaced(ws, seps)) == ws
  {
    WordsSkipsBlanks(pad, Spaced(ws, seps));
    WordsOfSpaced(ws, seps);
  }

  lemma {:induction false} WordsOfSpaced(ws: seq<string>, seps: seq<string>)
    requires |seps| == |ws| && Separators(seps)
    requires forall i :: 0 <= i < |ws| ==> IsToken(ws[i])
    ensures Words(Spaced(ws, seps)) == ws
    decreases |ws|
  {
    if ws == [] {
      WordsOfBlanks("");
    } else {
      var rest := Spaced(ws[1..], seps[1..]);
      SeparatorsTail(seps);
      WordsOfSpaced(ws[1..], seps[1..]);
      if |ws| == 1 {
        assert ws[0] + seps[0] + rest == ws[0] + seps[0];
        WordsCons(ws[0], seps[0]);
        WordsOfBlanks(seps[0]);
      } else {
        WordsSeparated(ws[0], seps[0], rest);
      }
      assert [ws[0]] + ws[1..] == ws;
    }
  }

  lemma SeparatorsTail(seps: seq<string>)
    requires seps != [] && Separators(seps)
    ensures Separators(seps[1..])
  {
    assert forall i :: 0 <= i < |seps| - 1 ==> seps[1..][i] == seps[i + 1];
  }

  /** `str.split()` takes apart what `" ".join` built, whatever blanks follow it. */
  lemma {:induction false} WordsUnwordsTail(ws: seq<string>, tail: string)
    requires forall i :: 0 <= i < |ws| ==> IsToken(ws[i])
    requires forall j :: 0 <= j < |tail| ==> IsSpace(tail[j])
    ensures Words(Unwords(ws) + tail) == ws
  {
    if ws == [] {
      WordsOfBlanks(tail);
      assert Unwords(ws) + tail == tail;
    } else if |ws| == 1 {
      WordsCons(ws[0], tail);
      WordsOfBlanks(tail);
    } else {
      WordsUnwordsTail(ws[1..], tail);
      WordsStep(ws[0], Unwords(ws[1..]), tail);
      assert [ws[0]] + ws[1..] == ws;
    }
  }

  lemma ConcatAssoc(a: string, b: string, c: string)
    ensures a + b + c == a + (b + c)
  {
  }

  /** Regrouping a space-separated run to the right, the way `Unwords` builds it. */
  lemma SpaceAssoc(a: string, b: string, c: string)
    ensures a + " " + b + " " + c == a + " " + (b + " " + c)
  {
    ConcatAssoc(a + " ", b, " " + c);
    ConcatAssoc(a + " " + b, " ", c);
    ConcatAssoc(b, " ", c);
    ConcatAssoc(a, " ", b + " " + c);
  }

  /** `str.split()` of a single-space join of tokens gives the tokens back. */
  lemma WordsOfUnwords(ws: seq<string>)
    requires forall i :: 0 <= i < |ws| ==> IsToken(ws[i])
    ensures Words(Unwords(ws)) == ws
  {
    WordsUnwordsTail(ws, "");
    assert Unwords(ws) + "" == Unwords(ws);
  }
}
