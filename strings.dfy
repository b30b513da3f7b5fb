/** The handful of string helpers the modelled code calls: Java's
    `String.trim` (through Apache's `StringUtils.trimToEmpty`),
    `StringUtils.substringBeforeLast` with the separator ".", and
    `StringUtils.split` with a string of separator characters. */
module StringUtils {
  import opened Wrappers

  /** `String.trim` removes every character up to U+0020 at both ends. */
  predicate IsBlank(c: char) {
    c <= ' '
  }

  /** No blank at either end: what `String.trim` returns. */
  predicate Trimmed(s: string) {
    s == [] || (!IsBlank(s[0]) && !IsBlank(s[|s| - 1]))
  }

  predicate AllBlank(s: string) {
    forall i :: 0 <= i < |s| ==> IsBlank(s[i])
  }

  /** How many blanks `s` starts with. */
  function LeadingBlanks(s: string): (n: nat)
    ensures n <= |s|
  {
    if s != [] && IsBlank(s[0]) then 1 + LeadingBlanks(s[1..]) else 0
  }

  /** How many blanks `s` ends with. */
  function TrailingBlanks(s: string): (n: nat)
    ensures n <= |s|
  {
    if s != [] && IsBlank(s[|s| - 1]) then 1 + TrailingBlanks(s[..|s| - 1]) else 0
  }

  /** The leading blanks are blanks, and the character after them is not. */
  lemma {:induction false} LeadingBlanksStop(s: string)
    ensures AllBlank(s[..LeadingBlanks(s)])
    ensures LeadingBlanks(s) < |s| ==> !IsBlank(s[LeadingBlanks(s)])
  {
    if s != [] && IsBlank(s[0]) {
      LeadingBlanksStop(s[1..]);
      var n := LeadingBlanks(s[1..]);
      forall i | 0 < i < n + 1 ensures IsBlank(s[i]) {
        assert s[i] == s[1..][..n][i - 1];
      }
    }
  }

  /** The trailing blanks are blanks, and the character before them is not. */
  lemma {:induction false} TrailingBlanksStop(s: string)
    ensures AllBlank(s[|s| - TrailingBlanks(s)..])
    ensures TrailingBlanks(s) < |s| ==> !IsBlank(s[|s| - 1 - TrailingBlanks(s)])
  {
    if s != [] && IsBlank(s[|s| - 1]) {
      var front := s[..|s| - 1];
      TrailingBlanksStop(front);
      var n := TrailingBlanks(front);
      forall i | |s| - (n + 1) <= i < |s| - 1 ensures IsBlank(s[i]) {
        assert s[i] == front[|front| - n..][i - (|s| - (n + 1))];
      }
    }
  }

  /** Java's `String.trim`: the leading blanks go, then the trailing ones. */
  function Trim(s: string): (r: string)
    ensures Trimmed(r) && |r| <= |s|
    ensures Trimmed(s) ==> r == s
  {
    var rest := s[LeadingBlanks(s)..];
    LeadingBlanksStop(s);
    TrailingBlanksStop(rest);
    rest[..|rest| - TrailingBlanks(rest)]
  }

  /** What `trim` removes is blank and sits at the two ends: the result is
      the input with a blank prefix and a blank suffix cut off. Together
      with `Trimmed(Trim(s))` this fixes the result: it is the input minus
      all of its leading and trailing blanks. */
  lemma TrimStripsBlankEnds(s: string)
    ensures exists i, j :: 0 <= i <= j <= |s| && Trim(s) == s[i..j] && AllBlank(s[..i]) && AllBlank(s[j..])
  {
    var i := LeadingBlanks(s);
    var rest := s[i..];
    LeadingBlanksStop(s);
    TrailingBlanksStop(rest);
    var j := i + |rest| - TrailingBlanks(rest);
    assert rest[..|rest| - TrailingBlanks(rest)] == s[i..j];
    assert s[j..] == rest[|rest| - TrailingBlanks(rest)..];
  }

  /** `StringUtils.trimToEmpty`: null becomes the empty string. */
  function TrimToEmpty(s: Option<string>): (r: string)
    ensures Trimmed(r)
    ensures s.None? ==> r == ""
  {
    if s.None? then "" else Trim(s.value)
  }

  lemma {:induction false} LeadingPadding(pad: string, s: string)
    requires AllBlank(pad)
    requires s == [] || !IsBlank(s[0])
    ensures LeadingBlanks(pad + s) == |pad|
    decreases |pad|
  {
    if pad != [] {
      assert (pad + s)[1..] == pad[1..] + s;
      LeadingPadding(pad[1..], s);
    } else {
      assert pad + s == s;
    }
  }

  /** Leading blanks in front of a trimmed word are all `trim` removes. */
  lemma TrimPadded(pad: string, s: string)
    requires AllBlank(pad) && Trimmed(s)
    ensures Trim(pad + s) == s
  {
    LeadingPadding(pad, s);
    assert (pad + s)[|pad|..] == s;
    assert s[..|s| - 0] == s;
  }

  // ---------------------------------------------------------------------
  // substringBeforeLast

  /** `String.lastIndexOf` for one character; `None` stands for -1. */
  function LastIndexOf(s: string, c: char): (i: Option<nat>)
    ensures i.Some? ==> i.value < |s|
  {
    if s == [] then None
    else if s[|s| - 1] == c then Some(|s| - 1)
    else LastIndexOf(s[..|s| - 1], c)
  }

  /** The index found holds the character and none comes after it; no
      index means the character does not occur. */
  lemma {:induction false} LastIndexOfIsLast(s: string, c: char)
    ensures LastIndexOf(s, c).None? <==> c !in s
    ensures var i := LastIndexOf(s, c);
      i.Some? ==> s[i.value] == c && c !in s[i.value + 1..]
  {
    if s != [] && s[|s| - 1] != c {
      var front := s[..|s| - 1];
      LastIndexOfIsLast(front, c);
      assert s == front + [s[|s| - 1]];
      var j := LastIndexOf(front, c);
      if j.Some? {
        assert s[j.value + 1..] == front[j.value + 1..] + [s[|s| - 1]];
      }
    }
  }

  /** `StringUtils.substringBeforeLast(s, ".")` (with `sep` for "."):
      the text before the last separator, or all of `s` when there is none. */
  function SubstringBeforeLast(s: string, sep: char): (r: string)
    ensures |r| <= |s|
  {
    var i := LastIndexOf(s, sep);
    if i.None? then s else s[..i.value]
  }

  /** The result is a prefix of `s`: all of it when `sep` does not occur,
      otherwise the part in front of the last `sep`. */
  lemma SubstringBeforeLastSplits(s: string, sep: char)
    ensures var r := SubstringBeforeLast(s, sep);
      && r == s[..|r|]
      && (sep !in s ==> r == s)
      && (sep in s ==> |r| < |s| && s[|r|] == sep && sep !in s[|r| + 1..])
  {
    LastIndexOfIsLast(s, sep);
  }

  /** A qualified name splits back into its qualifier: the namespace of
      `ns + "." + name` is `ns` whenever `name` holds no dot. */
  lemma SubstringBeforeLastOfQualified(ns: string, sep: char, name: string)
    requires sep !in name
    ensures SubstringBeforeLast(ns + [sep] + name, sep) == ns
  {
    var s := ns + [sep] + name;
    SubstringBeforeLastSplits(s, sep);
    assert s[|ns|] == sep;
    assert s[|ns| + 1..] == name;
    assert s[..|ns|] == ns;
  }

  // ---------------------------------------------------------------------
  // split

  predicate NoSeparator(t: string, seps: string) {
    forall i :: 0 <= i < |t| ==> t[i] !in seps
  }

  /** Length of the token at the start of `s`: up to the first separator. */
  function TokenEnd(s: string, seps: string): (n: nat)
    ensures n <= |s| && NoSeparator(s[..n], seps)
    ensures n < |s| ==> s[n] in seps
  {
    if s == [] || s[0] in seps then 0 else 1 + TokenEnd(s[1..], seps)
  }

  /** Apache `StringUtils.split(s, separatorChars)`: the maximal runs of
      non-separator characters; adjacent separators yield no empty token. */
  function Split(s: string, seps: string): (tokens: seq<string>)
    ensures forall i :: 0 <= i < |tokens| ==> tokens[i] != [] && NoSeparator(tokens[i], seps)
    decreases |s|
  {
    if s == [] then []
    else if s[0] in seps then Split(s[1..], seps)
    else
      var n := TokenEnd(s, seps);
      [s[..n]] + Split(s[n..], seps)
  }

  /** `trim` applied to every token. */
  function TrimAll(tokens: seq<string>): (r: seq<string>)
    ensures |r| == |tokens|
    ensures forall i :: 0 <= i < |r| ==> r[i] == Trim(tokens[i])
  {
    if tokens == [] then [] else [Trim(tokens[0])] + TrimAll(tokens[1..])
  }

  lemma {:induction false} TokenEndOfWord(t: string, u: string, seps: string)
    requires NoSeparator(t, seps)
    requires u == [] || u[0] in seps
    ensures TokenEnd(t + u, seps) == |t|
    decreases |t|
  {
    if t != [] {
      assert (t + u)[1..] == t[1..] + u;
      TokenEndOfWord(t[1..], u, seps);
    } else {
      assert t + u == u;
    }
  }

  /** A separator-free word followed by a separator splits off as one token. */
  lemma SplitWordThenSeparator(t: string, c: char, u: string, seps: string)
    requires t != [] && NoSeparator(t, seps) && c in seps
    ensures Split(t + [c] + u, seps) == [t] + Split(u, seps)
  {
    var s := t + [c] + u;
    TokenEndOfWord(t, [c] + u, seps);
    assert s == t + ([c] + u);
    assert s[..|t|] == t;
    assert s[|t|..] == [c] + u;
    assert ([c] + u)[1..] == u;
  }

  lemma SplitWord(t: string, seps: string)
    requires t != [] && NoSeparator(t, seps)
    ensures Split(t, seps) == [t]
  {
    TokenEndOfWord(t, [], seps);
    assert t + [] == t;
    assert t[..|t|] == t;
    assert t[|t|..] == [];
  }

  /** The text the configuration writes for a list of shards: the names
      separated by `sep` followed by the blank padding `pad` (", " for
      `sep` = ',' and `pad` = " "). */
  function Join(ids: seq<string>, sep: char, pad: string): string
  {
    if ids == [] then ""
    else if |ids| == 1 then ids[0]
    else ids[0] + [sep] + pad + Join(ids[1..], sep, pad)
  }

  lemma TrimAllCons(t: string, ts: seq<string>)
    ensures TrimAll([t] + ts) == [Trim(t)] + TrimAll(ts)
  {
    assert ([t] + ts)[1..] == ts;
  }

  lemma PaddedWord(lead: string, w: string, sep: char)
    requires !IsBlank(sep) && AllBlank(lead) && sep !in w
    ensures NoSeparator(lead + w, [sep])
  {
    var s := lead + w;
    forall i | 0 <= i < |s| ensures s[i] !in [sep] {
      if i >= |lead| {
        assert s[i] == w[i - |lead|];
      }
    }
  }

  /** Splitting a joined list and trimming every token recovers the list
      (at a word that begins with blanks the blanks stay on the token
      and `trim` removes them). */
  lemma {:induction false} SplitJoin(ids: seq<string>, sep: char, pad: string, lead: string)
    requires ids != []
    requires !IsBlank(sep) && AllBlank(pad) && AllBlank(lead)
    requires forall i :: 0 <= i < |ids| ==> ids[i] != [] && Trimmed(ids[i]) && sep !in ids[i]
    ensures TrimAll(Split(lead + Join(ids, sep, pad), [sep])) == ids
    decreases |ids|
  {
    var w := lead + ids[0];
    PaddedWord(lead, ids[0], sep);
    TrimPadded(lead, ids[0]);
    if |ids| == 1 {
      SplitWord(w, [sep]);
      TrimAllCons(w, []);
    } else {
      var rest := pad + Join(ids[1..], sep, pad);
      assert lead + Join(ids, sep, pad) == w + [sep] + rest;
      SplitWordThenSeparator(w, sep, rest, [sep]);
      SplitJoin(ids[1..], sep, pad, pad);
      TrimAllCons(w, Split(rest, [sep]));
      assert ids == [ids[0]] + ids[1..];
    }
  }
}
