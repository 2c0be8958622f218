/**
 * Name and room-code sanitising, the colour palette and room-code generation
 * (server.js:24-56).
 */
module Names {
  import opened Wrappers

  const MAX_PLAYERS: nat := 20
  const MIN_TO_START: nat := 3
  /** Names are cut to this many letters after sanitising. */
  const MAX_NAME_LEN: nat := 20
  /** Room codes are this many letters. */
  const CODE_LEN: nat := 4

  /** The fixed palette, in the order it is handed out. */
  const COLORS: seq<string> := [
    "#ff3b3b", "#4a90e2", "#50e3c2", "#f5a623", "#9013fe",
    "#b8e986", "#f8e71c", "#7ed321", "#d0021b", "#8b572a",
    "#bd10e0", "#417505", "#f6a", "#0bd", "#ff7f50",
    "#1abc9c", "#e74c3c", "#3498db", "#9b59b6", "#e67e22"
  ]

  /**
   * A random index into a range of `n` items, supplied by the caller
   * (server.js draws it uniformly): below `n`, or 0 when the range is empty.
   */
  predicate IndexDraw(k: nat, n: nat) { k < n || k == 0 }

  predicate IsUpper(c: char) { 'A' <= c <= 'Z' }
  predicate IsLower(c: char) { 'a' <= c <= 'z' }

  predicate AllUpper(s: string) { forall i :: 0 <= i < |s| ==> IsUpper(s[i]) }

  /** A player name as the registry stores it: 1 to 20 letters A-Z. */
  predicate IsName(s: string) { 1 <= |s| <= MAX_NAME_LEN && AllUpper(s) }

  /** A room code: exactly four letters A-Z. */
  predicate IsRoomCode(s: string) { |s| == CODE_LEN && AllUpper(s) }

  /** ASCII upper-casing of one character. */
  function ToUpper(c: char): (u: char)
    ensures IsUpper(u) <==> IsUpper(c) || IsLower(c)
    ensures IsLower(c) ==> u as int == c as int - 32
    ensures !IsLower(c) ==> u == c
  {
    if IsLower(c) then (c as int - 32) as char else c
  }

  /** Upper-case, then drop every character outside A-Z (server.js:37-40). */
  function Sanitize(s: string): (r: string)
    ensures AllUpper(r)
    ensures |r| <= |s|
  {
    if s == [] then []
    else
      var c := ToUpper(s[0]);
      (if IsUpper(c) then [c] else []) + Sanitize(s[1..])
  }

  /** The first `n` characters, or all of them when there are fewer. */
  function Truncate(s: string, n: nat): (r: string)
    ensures |r| == if |s| <= n then |s| else n
    ensures r == s[..|r|]
  {
    if |s| <= n then s else s[..n]
  }

  /** The name the create and join handlers work with: sanitised, then cut to 20 letters. */
  function CleanName(raw: string): (r: string)
    ensures r == [] || IsName(r)
    ensures r == [] <==> Sanitize(raw) == []
    ensures |r| == if |Sanitize(raw)| <= MAX_NAME_LEN then |Sanitize(raw)| else MAX_NAME_LEN
    ensures r == Sanitize(raw)[..|r|]
  {
    Truncate(Sanitize(raw), MAX_NAME_LEN)
  }

  /** The code the join handler looks up: sanitised, then cut to 4 letters. */
  function CleanCode(raw: string): (r: string)
    ensures |r| <= CODE_LEN && AllUpper(r)
    ensures |r| == if |Sanitize(raw)| <= CODE_LEN then |Sanitize(raw)| else CODE_LEN
    ensures r == Sanitize(raw)[..|r|]
  {
    Truncate(Sanitize(raw), CODE_LEN)
  }

  /** One character sanitises to its upper-case form when that is a letter A-Z, and to nothing otherwise. */
  lemma SanitizeSingle(c: char)
    ensures Sanitize([c]) == if IsUpper(c) || IsLower(c) then [ToUpper(c)] else []
  {
    assert [c][1..] == [];
  }

  /** Sanitising leaves a string of letters A-Z as it is. */
  lemma {:induction false} SanitizeKeepsUpper(s: string)
    requires AllUpper(s)
    ensures Sanitize(s) == s
  {
    if s != [] {
      SanitizeKeepsUpper(s[1..]);
    }
  }

  /** Sanitising twice is sanitising once. */
  lemma SanitizeIdempotent(s: string)
    ensures Sanitize(Sanitize(s)) == Sanitize(s)
  {
    SanitizeKeepsUpper(Sanitize(s));
  }

  /** Sanitising works character by character, so it distributes over concatenation. */
  lemma {:induction false} SanitizeAppend(a: string, b: string)
    ensures Sanitize(a + b) == Sanitize(a) + Sanitize(b)
  {
    if a != [] {
      assert (a + b)[1..] == a[1..] + b;
      SanitizeAppend(a[1..], b);
    } else {
      assert a + b == b;
    }
  }

  /** A name is rejected as empty exactly when the input holds no ASCII letter. */
  lemma {:induction false} SanitizeEmptyIff(s: string)
    ensures Sanitize(s) == [] <==> forall i :: 0 <= i < |s| ==> !IsUpper(s[i]) && !IsLower(s[i])
  {
    if s != [] {
      SanitizeEmptyIff(s[1..]);
      assert forall i :: 1 <= i < |s| ==> s[i] == s[1..][i - 1];
    }
  }

  /** Index of the first palette entry at or after `k` that is not in `used`. */
  function FirstFreeColor(used: set<string>, k: nat): (r: Option<nat>)
    requires k <= |COLORS|
    ensures r.Some? ==> k <= r.value < |COLORS| && COLORS[r.value] !in used
    ensures r.Some? ==> forall j :: k <= j < r.value ==> COLORS[j] in used
    ensures r.None? ==> forall j :: k <= j < |COLORS| ==> COLORS[j] in used
    decreases |COLORS| - k
  {
    if k == |COLORS| then None
    else if COLORS[k] !in used then Some(k)
    else FirstFreeColor(used, k + 1)
  }

  /**
   * `pickColor`: the first palette entry not in `used`; when every entry is
   * used, the entry at the caller-supplied random index `fallback`.
   */
  function PickColor(used: set<string>, fallback: nat): (c: string)
    requires fallback < |COLORS|
    ensures c in COLORS
    ensures FirstFreeColor(used, 0).Some? ==> c == COLORS[FirstFreeColor(used, 0).value] && c !in used
    ensures FirstFreeColor(used, 0).None? ==> c == COLORS[fallback]
  {
    match FirstFreeColor(used, 0)
    case Some(i) => COLORS[i]
    case None => COLORS[fallback]
  }

  lemma ColorsDistinct()
    ensures |COLORS| == MAX_PLAYERS
    ensures forall i, j :: 0 <= i < j < |COLORS| ==> COLORS[i] != COLORS[j]
  {
  }

  /** The elements of a sequence with no repeats are as many as its length. */
  lemma {:induction false} DistinctCard(s: seq<string>)
    requires forall i, j :: 0 <= i < j < |s| ==> s[i] != s[j]
    ensures |set x | x in s| == |s|
  {
    if s != [] {
      var rest := s[1..];
      DistinctCard(rest);
      assert (set x | x in s) == (set x | x in rest) + {s[0]};
      assert s[0] !in rest by {
        forall i | 0 <= i < |rest| ensures rest[i] != s[0] { assert rest[i] == s[i + 1]; }
      }
    }
  }

  /** With fewer used colours than palette entries, the picked colour is unused. */
  lemma PickColorFresh(used: set<string>, fallback: nat)
    requires fallback < |COLORS|
    requires |used| < |COLORS|
    ensures PickColor(used, fallback) !in used
  {
    if FirstFreeColor(used, 0).None? {
      ColorsDistinct();
      DistinctCard(COLORS);
      var palette := set x | x in COLORS;
      assert palette <= used;
      SubsetCard(palette, used);
    }
  }

  lemma SubsetCard(a: set<string>, b: set<string>)
    requires a <= b
    ensures |a| <= |b|
  {
    assert b == a + (b - a);
  }

  /** The letter for a random draw 0..25: the `k`-th letter of the alphabet (server.js:53). */
  function LetterOf(k: nat): (c: char)
    requires k < 26
    ensures IsUpper(c)
  {
    (65 + k) as char
  }

  predicate IsDraw(d: seq<nat>) { |d| == CODE_LEN && forall i :: 0 <= i < |d| ==> d[i] < 26 }

  /** The room code spelled by four random letter draws. */
  function CodeOf(d: seq<nat>): (code: string)
    requires IsDraw(d)
    ensures IsRoomCode(code)
  {
    seq(CODE_LEN, i requires 0 <= i < CODE_LEN => LetterOf(d[i]))
  }

  /** The draws that spell a given room code. */
  function DrawOf(code: string): (d: seq<nat>)
    requires IsRoomCode(code)
    ensures IsDraw(d)
  {
    seq(CODE_LEN, i requires 0 <= i < CODE_LEN => (code[i] as int - 65) as nat)
  }

  /** Draws and codes are in one-to-one correspondence: every 4-letter code can be generated. */
  lemma CodeDrawRoundTrip(code: string, d: seq<nat>)
    requires IsRoomCode(code) && IsDraw(d)
    ensures CodeOf(DrawOf(code)) == code
    ensures DrawOf(CodeOf(d)) == d
  {
  }
}
