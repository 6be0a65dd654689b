/** The PHP string functions the command handlers use to cut up their
    argument text: `trim` with its default character list, and `explode`
    on a single space with a positive limit (with `implode` as its inverse). */
module PhpStrings {

  /** The characters `trim` strips by default: space, tab, newline,
      carriage return, NUL and vertical tab. */
  predicate IsTrimmable(c: char)
  {
    c as int in {32, 9, 10, 13, 0, 11}
  }

  /** Where the text left after the leading trimmable characters from `i`
      on begins. */
  function TrimStart(s: string, i: nat): (lo: nat)
    requires i <= |s|
    ensures i <= lo <= |s|
    ensures forall k :: i <= k < lo ==> IsTrimmable(s[k])
    ensures lo < |s| ==> !IsTrimmable(s[lo])
    decreases |s| - i
  {
    if i < |s| && IsTrimmable(s[i]) then TrimStart(s, i + 1) else i
  }

  /** Where the text before the trailing trimmable characters among
      `s[lo..j]` ends. */
  function TrimEnd(s: string, lo: nat, j: nat): (hi: nat)
    requires lo <= j <= |s|
    ensures lo <= hi <= j
    ensures forall k :: hi <= k < j ==> IsTrimmable(s[k])
    ensures hi > lo ==> !IsTrimmable(s[hi - 1])
  {
    if j > lo && IsTrimmable(s[j - 1]) then TrimEnd(s, lo, j - 1) else j
  }

  /** `r` is `s[lo..]` cut to its length, and everything around it in `s` is trimmable. */
  ghost predicate CutFrom(s: string, lo: int, r: string)
  {
    0 <= lo <= |s| - |r| && r == s[lo..lo + |r|]
    && (forall i :: 0 <= i < lo ==> IsTrimmable(s[i]))
    && (forall i :: lo + |r| <= i < |s| ==> IsTrimmable(s[i]))
  }

  /** Where `trim`'s result starts in `s`: after the leading trimmable characters. */
  function TrimOffset(s: string): (lo: nat)
    ensures lo <= |s|
  {
    TrimStart(s, 0)
  }

  /** `trim`: the longest infix of `s` that neither starts nor ends with a
      trimmable character; everything cut off is trimmable. */
  function Trim(s: string): (r: string)
    ensures r != [] ==> !IsTrimmable(r[0]) && !IsTrimmable(r[|r| - 1])
    ensures CutFrom(s, TrimOffset(s), r)
  {
    var lo := TrimOffset(s);
    s[lo..TrimEnd(s, lo, |s|)]
  }

  /** Trimming twice changes nothing more. */
  lemma TrimIdempotent(s: string)
    ensures Trim(Trim(s)) == Trim(s)
  {
    var t := Trim(s);
    if t != [] {
      assert TrimOffset(t) == 0;
      assert TrimEnd(t, 0, |t|) == |t|;
    } else {
      assert TrimOffset(t) == 0;
    }
  }

  /** The position of the first occurrence of `c` in `s`, or |s| when there is none. */
  function FindChar(s: string, c: char): (r: nat)
    ensures r <= |s|
    ensures r < |s| ==> s[r] == c
    ensures forall j :: 0 <= j < r ==> s[j] != c
  {
    if s == [] then 0
    else if s[0] == c then 0
    else 1 + FindChar(s[1..], c)
  }

  /** `implode(' ', pieces)`. */
  function Implode(pieces: seq<string>): string
  {
    if pieces == [] then ""
    else if |pieces| == 1 then pieces[0]
    else pieces[0] + " " + Implode(pieces[1..])
  }

  /** `explode(' ', s, limit)` for a positive limit: at most `limit` pieces,
      cut at the first spaces, the last piece holding the rest of the text
      unsplit. Joining the pieces with spaces gives `s` back. */
  function Explode(s: string, limit: nat): (pieces: seq<string>)
    requires limit >= 1
    ensures 1 <= |pieces| <= limit
    ensures Implode(pieces) == s
    ensures forall i :: 0 <= i < |pieces| - 1 ==> ' ' !in pieces[i]
    ensures |pieces| < limit ==> ' ' !in pieces[|pieces| - 1]
    decreases |s|
  {
    var i := FindChar(s, ' ');
    if limit == 1 || i == |s| then [s]
    else
      var rest := Explode(s[i + 1..], limit - 1);
      assert s == s[..i] + " " + s[i + 1..];
      [s[..i]] + rest
  }

  /** With limit 1, `explode` never splits. */
  lemma ExplodeOne(s: string)
    ensures Explode(s, 1) == [s]
  {
  }

  /** With limit 2, `explode` cuts at the first space, if there is one:
      the first piece is the text before it, the second everything after it. */
  lemma ExplodeTwo(s: string)
    ensures var i := FindChar(s, ' ');
      Explode(s, 2) == if i < |s| then [s[..i], s[i + 1..]] else [s]
  {
    var i := FindChar(s, ' ');
    if i < |s| {
      assert Explode(s[i + 1..], 1) == [s[i + 1..]];
    }
  }
}
