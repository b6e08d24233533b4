/** memoryagent/utils.py: the lexical tokenizer every index and score is
    built on, and the two numeric guards `safe_div` and `clamp`.
    `hash_embed` is not part of this model. */
module Utils {
  import opened PyLib

  /** A character of the pattern `[a-zA-Z0-9']`. */
  predicate IsWordChar(c: char)
  {
    ('a' <= c <= 'z') || ('A' <= c <= 'Z') || ('0' <= c <= '9') || c == '\''
  }

  /** A character a token may hold once lowered: `[a-z0-9']`. */
  predicate IsTokenChar(c: char)
  {
    ('a' <= c <= 'z') || ('0' <= c <= '9') || c == '\''
  }

  function LowerChar(c: char): char
  {
    if 'A' <= c <= 'Z' then (c as int + 32) as char else c
  }

  /** `str.lower()` on the ASCII letters. */
  function Lower(s: string): (r: string)
    ensures |r| == |s|
  {
    if s == [] then [] else [LowerChar(s[0])] + Lower(s[1..])
  }

  /** Each character is lowered on its own. */
  lemma {:induction false} LowerEach(s: string)
    ensures forall i | 0 <= i < |s| :: Lower(s)[i] == LowerChar(s[i])
    decreases |s|
  {
    if s != [] {
      LowerEach(s[1..]);
    }
  }

  /** Text without upper-case letters is its own lower case. */
  lemma {:induction false} LowerIdentity(s: string)
    requires forall i | 0 <= i < |s| :: !('A' <= s[i] <= 'Z')
    ensures Lower(s) == s
  {
    if s != [] {
      LowerIdentity(s[1..]);
      assert s == [s[0]] + s[1..];
    }
  }

  lemma LowerWordChar(c: char)
    requires IsWordChar(c)
    ensures IsTokenChar(LowerChar(c))
  {
  }

  /** The scanner behind `re.findall`: `cur` is the run of word characters
      read so far, already lowered. */
  function Scan(s: string, cur: string): seq<string>
    decreases |s|
  {
    if s == [] then (if cur == [] then [] else [cur])
    else if IsWordChar(s[0]) then Scan(s[1..], cur + [LowerChar(s[0])])
    else (if cur == [] then [] else [cur]) + Scan(s[1..], [])
  }

  /** `tokenize(text)`: the maximal runs of `[a-zA-Z0-9']`, lowered, in
      order. A missing text (`None`) is the empty string here. */
  function Tokenize(s: string): (r: seq<string>)
    ensures s == [] ==> r == []
  {
    Scan(s, [])
  }

  /** `unique_tokens(text)` */
  function UniqueTokens(s: string): (r: set<string>)
    ensures forall t :: t in r <==> t in Tokenize(s)
  {
    set t | t in Tokenize(s)
  }

  predicate WellFormedToken(t: string)
  {
    t != [] && forall i | 0 <= i < |t| :: IsTokenChar(t[i])
  }

  lemma {:induction false} ScanWellFormed(s: string, cur: string)
    requires forall i | 0 <= i < |cur| :: IsTokenChar(cur[i])
    ensures forall t | t in Scan(s, cur) :: WellFormedToken(t)
    decreases |s|
  {
    if s != [] {
      if IsWordChar(s[0]) {
        LowerWordChar(s[0]);
        var cur' := cur + [LowerChar(s[0])];
        assert forall i | 0 <= i < |cur'| :: IsTokenChar(cur'[i]) by {
          forall i | 0 <= i < |cur'| ensures IsTokenChar(cur'[i]) {
            if i < |cur| { assert cur'[i] == cur[i]; }
          }
        }
        ScanWellFormed(s[1..], cur');
      } else {
        ScanWellFormed(s[1..], []);
      }
    }
  }

  /** Every token is non-empty and made of `[a-z0-9']` only. */
  lemma TokensWellFormed(s: string)
    ensures forall t | t in Tokenize(s) :: WellFormedToken(t)
  {
    ScanWellFormed(s, []);
  }

  /** A run of word characters is one token, lowered. */
  lemma {:induction false} ScanWord(w: string, cur: string)
    requires forall i | 0 <= i < |w| :: IsWordChar(w[i])
    requires cur + w != []
    ensures Scan(w, cur) == [cur + Lower(w)]
    decreases |w|
  {
    if w == [] {
      assert cur + Lower(w) == cur;
    } else {
      var cur' := cur + [LowerChar(w[0])];
      assert forall i | 0 <= i < |w[1..]| :: IsWordChar(w[1..][i]) by {
        forall i | 0 <= i < |w[1..]| ensures IsWordChar(w[1..][i]) {
          assert w[1..][i] == w[i + 1];
        }
      }
      ScanWord(w[1..], cur');
      assert Scan(w, cur) == Scan(w[1..], cur');
      assert Lower(w) == [LowerChar(w[0])] + Lower(w[1..]);
      assert cur' + Lower(w[1..]) == cur + Lower(w);
    }
  }

  lemma {:induction false} TokenizeWord(w: string)
    requires w != [] && forall i | 0 <= i < |w| :: IsWordChar(w[i])
    ensures Tokenize(w) == [Lower(w)]
  {
    var empty: string := [];
    assert empty + w == w;
    ScanWord(w, empty);
    assert empty + Lower(w) == Lower(w);
  }

  lemma {:induction false} ScanSplit(a: string, c: char, b: string, cur: string)
    requires !IsWordChar(c)
    ensures Scan(a + [c] + b, cur) == Scan(a, cur) + Scan(b, [])
    decreases |a|
  {
    if a == [] {
      assert a + [c] + b == [c] + b;
      assert ([c] + b)[1..] == b;
    } else {
      assert (a + [c] + b)[0] == a[0];
      assert (a + [c] + b)[1..] == a[1..] + [c] + b;
      if IsWordChar(a[0]) {
        ScanSplit(a[1..], c, b, cur + [LowerChar(a[0])]);
      } else {
        ScanSplit(a[1..], c, b, []);
      }
    }
  }

  /** A separator splits the token stream: tokens never span a character
      outside `[a-zA-Z0-9']`. With `TokenizeWord` this pins `Tokenize`
      down on every input. */
  lemma TokenizeSplit(a: string, c: char, b: string)
    requires !IsWordChar(c)
    ensures Tokenize(a + [c] + b) == Tokenize(a) + Tokenize(b)
  {
    ScanSplit(a, c, b, []);
  }

  /** The concatenation of all tokens. */
  function Flatten(ts: seq<string>): string
  {
    if ts == [] then [] else ts[0] + Flatten(ts[1..])
  }

  /** The word characters of `s`, lowered, in order. */
  function LoweredWordChars(s: string): string
  {
    if s == [] then []
    else (if IsWordChar(s[0]) then [LowerChar(s[0])] else []) + LoweredWordChars(s[1..])
  }

  lemma {:induction false} ScanFlatten(s: string, cur: string)
    ensures Flatten(Scan(s, cur)) == cur + LoweredWordChars(s)
    decreases |s|
  {
    if s != [] {
      if IsWordChar(s[0]) {
        ScanFlatten(s[1..], cur + [LowerChar(s[0])]);
      } else {
        ScanFlatten(s[1..], []);
        var head := if cur == [] then [] else [cur];
        FlattenAppend(head, Scan(s[1..], []));
      }
    }
  }

  lemma {:induction false} FlattenAppend(a: seq<string>, b: seq<string>)
    ensures Flatten(a + b) == Flatten(a) + Flatten(b)
    decreases |a|
  {
    if a == [] {
      assert a + b == b;
    } else {
      assert (a + b)[1..] == a[1..] + b;
      FlattenAppend(a[1..], b);
    }
  }

  /** Nothing is lost or reordered: the tokens, read in order, spell out
      exactly the word characters of the input, lowered. */
  lemma TokenizeFlatten(s: string)
    ensures Flatten(Tokenize(s)) == LoweredWordChars(s)
  {
    ScanFlatten(s, []);
  }

  /** `safe_div(numerator, denominator)` */
  function SafeDiv(numerator: real, denominator: real): (r: real)
    ensures denominator == 0.0 ==> r == 0.0
    ensures denominator != 0.0 ==> r * denominator == numerator
  {
    if denominator != 0.0 then numerator / denominator else 0.0
  }

  /** `clamp(value, low, high)` is `max(low, min(high, value))`. */
  function Clamp(value: real, low: real, high: real): (r: real)
    ensures low <= high ==> low <= r <= high
    ensures low <= value <= high ==> r == value
    ensures value <= low ==> r == low
    ensures high <= value && low <= high ==> r == high
  {
    var m := if high < value then high else value;
    if low < m then m else low
  }

  /** `clamp(value)` with the defaults `low=0.0`, `high=1.0`. */
  function Clamp01(value: real): (r: real)
    ensures 0.0 <= r <= 1.0
    ensures 0.0 <= value <= 1.0 ==> r == value
  {
    Clamp(value, 0.0, 1.0)
  }
}
