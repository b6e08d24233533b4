/** memoryagent/examples/memory_api_server.py: the pure pieces of the
    example HTTP server. It reads the `owner` query parameter and filters
    the dashboard payload by it, and it packs retrieved memory blocks into
    a prompt under the plan's token budget. The history rendering it uses
    is `Policy.HistoryEntryText`, the same function as the policy's. */
module ApiServer {
  import opened PyLib
  import opened Utils
  import opened Models
  import opened Policy

  // ---------------------------------------------------------------
  // Query string
  // ---------------------------------------------------------------

  /** The index of the first `c` in `s`. */
  function IndexOf(s: string, c: char): (i: nat)
    requires c in s
    ensures i < |s| && s[i] == c && c !in s[..i]
  {
    if s[0] == c then 0
    else
      var j := IndexOf(s[1..], c);
      assert s[..j + 1] == [s[0]] + s[1..][..j];
      j + 1
  }

  /** `s.split(sep)` for a one-character separator: the pieces between the
      separators, in order, one more than there are separators. */
  function Split(s: string, sep: char): (r: seq<string>)
    ensures |r| >= 1
    ensures sep !in s ==> r == [s]
    ensures forall i | 0 <= i < |r| :: sep !in r[i]
    decreases |s|
  {
    if sep !in s then [s]
    else
      var i := IndexOf(s, sep);
      [s[..i]] + Split(s[i + 1..], sep)
  }

  /** Joining the pieces with the separator gives back the text. */
  lemma {:induction false} SplitJoin(s: string, sep: char)
    ensures Join([sep], Split(s, sep)) == s
    decreases |s|
  {
    if sep in s {
      var i := IndexOf(s, sep);
      SplitJoin(s[i + 1..], sep);
      assert s == s[..i] + [sep] + s[i + 1..];
    }
  }

  /** Splitting a join of pieces that hold no separator gives back the
      pieces. */
  lemma {:induction false} JoinSplit(parts: seq<string>, sep: char)
    ensures parts != [] && (forall i | 0 <= i < |parts| :: sep !in parts[i]) ==> Split(Join([sep], parts), sep) == parts
    decreases |parts|
  {
    if |parts| > 1 && forall i | 0 <= i < |parts| :: sep !in parts[i] {
      var s := Join([sep], parts);
      var rest := Join([sep], parts[1..]);
      JoinSplit(parts[1..], sep);
      assert forall i | 0 <= i < |parts[1..]| :: parts[1..][i] == parts[i + 1];
      var n := |parts[0]|;
      assert s == parts[0] + [sep] + rest;
      assert s[..n] == parts[0] && s[n] == sep && s[n + 1..] == rest;
      assert IndexOf(s, sep) == n;
    }
  }

  /** The value of the first part of the form `owner=...`. */
  function FirstOwner(parts: seq<string>): (r: Option<string>)
    ensures r.None? <==> forall i | 0 <= i < |parts| :: !StartsWith(parts[i], "owner=")
  {
    if parts == [] then None
    else if StartsWith(parts[0], "owner=") then Some(parts[0][6..])
    else FirstOwner(parts[1..])
  }

  /** The owner found is the value of the first `owner=` part: later
      parts cannot override it. */
  lemma {:induction false} FirstOwnerIsFirst(parts: seq<string>, i: nat)
    requires i < |parts| && StartsWith(parts[i], "owner=")
    requires forall j | 0 <= j < i :: !StartsWith(parts[j], "owner=")
    ensures FirstOwner(parts) == Some(parts[i][6..])
  {
    if i > 0 {
      FirstOwnerIsFirst(parts[1..], i - 1);
    }
  }

  /** The `owner` parameter of a request path: the text after the first
      `?` is split on `&`, and the first `owner=` part gives the value
      after its `=`. */
  function OwnerParam(path: string): Option<string>
  {
    if '?' !in path then None
    else
      var i := IndexOf(path, '?');
      FirstOwner(Split(path[i + 1..], '&'))
  }

  /** A path without a query string names no owner, and a query string
      `owner=o` (one parameter, no `&` in `o`) names `o`: reading the
      parameter undoes writing it. */
  lemma OwnerParamRoundTrip(base: string, o: string)
    requires '?' !in base && '&' !in o
    ensures OwnerParam(base) == None
    ensures OwnerParam(base + "?owner=" + o) == Some(o)
  {
    var path := base + "?owner=" + o;
    var i := IndexOf(path, '?');
    assert path[..|base|] == base;
    assert path[|base|] == '?';
    assert i == |base| by {
      assert forall k | 0 <= k < i :: path[..i][k] == path[k];
    }
    var after := path[i + 1..];
    assert after == "owner=" + o;
    assert '&' !in "owner=";
    assert '&' !in after;
    assert after[..6] == "owner=";
    assert after[6..] == o;
    FirstOwnerIsFirst([after], 0);
  }

  // ---------------------------------------------------------------
  // Owner filter
  // ---------------------------------------------------------------

  /** One record of the dashboard payload: its fields by their string
      values. */
  datatype Row = Row(fields: map<string, string>)

  /** The three per-owner lists of the dashboard payload; a list the
      payload lacks is the empty list. */
  datatype DashboardPayload = DashboardPayload(hotItems: seq<Row>, features: seq<Row>, coldRecords: seq<Row>)

  /** The elements of `s` that satisfy `keep`, in order. */
  function Filter<T(!new)>(s: seq<T>, keep: T -> bool): (r: seq<T>)
    ensures |r| <= |s|
    ensures forall x :: x in r <==> x in s && keep(x)
  {
    if s == [] then []
    else (if keep(s[0]) then [s[0]] else []) + Filter(s[1..], keep)
  }

  /** Filtering keeps the multiplicity of every kept element and drops
      every other element entirely. */
  lemma {:induction false} FilterCount<T(!new)>(s: seq<T>, keep: T -> bool, x: T)
    ensures Count(Filter(s, keep), x) == if keep(x) then Count(s, x) else 0
  {
    if s != [] {
      FilterCount(s[1..], keep, x);
      var head := if keep(s[0]) then [s[0]] else [];
      CountAppend(head, Filter(s[1..], keep), x);
      assert s == [s[0]] + s[1..];
      CountAppend([s[0]], s[1..], x);
    }
  }

  /** A hot item or a feature row belongs to the owner named in its
      `owner` field. */
  predicate OwnedRow(owner: string, r: Row)
  {
    "owner" in r.fields && r.fields["owner"] == owner
  }

  /** A cold record belongs to every owner whose name appears as a path
      segment `/owner/` of its `path` field. */
  predicate ColdRowMatches(owner: string, r: Row)
  {
    Contains(Get(r.fields, "path", ""), "/" + owner + "/")
  }

  /** The payload `GET /api/memory` answers: filtered by owner when the
      path names a non-empty owner, as loaded otherwise. */
  function FilterPayload(p: DashboardPayload, owner: Option<string>): (r: DashboardPayload)
    ensures owner.None? || owner.value == "" ==> r == p
    ensures owner.Some? && owner.value != "" ==>
      && (forall x :: x in r.hotItems <==> x in p.hotItems && OwnedRow(owner.value, x))
      && (forall x :: x in r.features <==> x in p.features && OwnedRow(owner.value, x))
      && (forall x :: x in r.coldRecords <==> x in p.coldRecords && ColdRowMatches(owner.value, x))
  {
    if owner.None? || owner.value == "" then p
    else
      var o := owner.value;
      DashboardPayload(Filter(p.hotItems, x => OwnedRow(o, x)),
                       Filter(p.features, x => OwnedRow(o, x)),
                       Filter(p.coldRecords, x => ColdRowMatches(o, x)))
  }

  /** Filtering a concatenation filters each part: the kept elements stay
      in their order. */
  lemma {:induction false} FilterAppend<T(!new)>(a: seq<T>, b: seq<T>, keep: T -> bool)
    ensures Filter(a + b, keep) == Filter(a, keep) + Filter(b, keep)
    decreases |a|
  {
    if a != [] {
      FilterAppend(a[1..], b, keep);
      assert (a + b)[1..] == a[1..] + b;
    } else {
      assert a + b == b;
    }
  }

  /** A text holds `w` wherever `w` occurs in it. */
  lemma {:induction false} ContainsAt(s: string, w: string, i: nat)
    requires i + |w| <= |s| && s[i..i + |w|] == w
    ensures Contains(s, w)
  {
    if i > 0 {
      ContainsAt(s[1..], w, i - 1);
      assert s[1..][i - 1..i - 1 + |w|] == s[i..i + |w|];
    } else {
      assert s[..|w|] == s[i..i + |w|];
    }
  }

  /** Every cold record stored under an owner's directory is kept for that
      owner. */
  lemma ColdFilterKeepsOwnerDirectory(prefix: string, owner: string, rest: string)
    ensures ColdRowMatches(owner, Row(map["path" := prefix + "/" + owner + "/" + rest]))
  {
    var path := prefix + "/" + owner + "/" + rest;
    var w := "/" + owner + "/";
    assert path == prefix + w + rest;
    assert path[|prefix|..|prefix| + |w|] == w;
    ContainsAt(path, w, |prefix|);
  }

  /** The match is on any path segment, not on the owner directory: the
      record of `owner` in a daily-notes directory `year/month` is also
      kept for an owner whose name is the year or the month, although its
      hot items and features are not. */
  lemma ColdFilterMatchesAnySegment(prefix: string, owner: string, year: string, month: string, rest: string)
    requires owner != month
    ensures ColdRowMatches(month, Row(map["path" := prefix + "/" + owner + "/" + year + "/" + month + "/" + rest]))
    ensures ColdRowMatches(year, Row(map["path" := prefix + "/" + owner + "/" + year + "/" + month + "/" + rest]))
    ensures !OwnedRow(month, Row(map["owner" := owner]))
  {
    var path := prefix + "/" + owner + "/" + year + "/" + month + "/" + rest;
    assert path == (prefix + "/" + owner + "/" + year) + "/" + month + "/" + rest;
    ColdFilterKeepsOwnerDirectory(prefix + "/" + owner + "/" + year, month, rest);
    assert path == (prefix + "/" + owner) + "/" + year + "/" + (month + "/" + rest);
    ColdFilterKeepsOwnerDirectory(prefix + "/" + owner, year, month + "/" + rest);
  }

  // ---------------------------------------------------------------
  // Token budget
  // ---------------------------------------------------------------

  /** The prompt line of a block: `- [<type>] <text>`, the type by its
      value. */
  function BlockLine(b: MemoryBlock): string
  {
    "- [" + TypeValue(b.memoryType) + "] " + b.text
  }

  function LineTokens(b: MemoryBlock): nat
  {
    |Tokenize(BlockLine(b))|
  }

  /** The tokens of the first `n` block lines. */
  function PrefixTokens(blocks: seq<MemoryBlock>, n: nat): nat
    requires n <= |blocks|
  {
    if n == 0 then 0 else PrefixTokens(blocks, n - 1) + LineTokens(blocks[n - 1])
  }

  /** A block line costs exactly one token more than the block's text:
      the type name is one token, and the dash and the brackets are none. */
  lemma LineTokensExact(b: MemoryBlock)
    ensures LineTokens(b) == 1 + |Tokenize(b.text)|
  {
    var tv := TypeValue(b.memoryType);
    var empty: string := [];
    assert forall i | 0 <= i < |tv| :: IsWordChar(tv[i]);
    TokenizeWord(tv);
    TokenizeSplit(empty, '-', empty);
    assert empty + ['-'] + empty == "-";
    TokenizeSplit("-", ' ', empty);
    assert "-" + [' '] + empty == "- ";
    TokenizeSplit(empty, ' ', b.text);
    assert empty + [' '] + b.text == " " + b.text;
    var rest := tv + [']'] + (" " + b.text);
    TokenizeSplit(tv, ']', " " + b.text);
    assert Tokenize(rest) == [Lower(tv)] + Tokenize(b.text);
    TokenizeSplit("- ", '[', rest);
    assert Tokenize("- " + ['['] + rest) == Tokenize(rest);
    var tail := " " + b.text;
    ConcatAssoc("- [" + tv, "] ", b.text);
    ConcatAssoc("- [", tv, "] " + b.text);
    assert "] " == [']'] + " ";
    ConcatAssoc([']'], " ", b.text);
    ConcatAssoc(tv, [']'], tail);
    assert "- [" == "- " + ['['];
  }

  /** Regrouping a concatenation, as a separate fact so that the proof
      above names only the groupings it needs (a solver-cost aid). */
  lemma ConcatAssoc(a: string, b: string, c: string)
    ensures a + b + c == a + (b + c)
  {
  }

  /** The packing loop: block lines are taken in order while the running
      token count stays within the budget, and the loop stops at the first
      block that would overflow it. */
  method PackBlocks(blocks: seq<MemoryBlock>, budget: int) returns (lines: seq<string>, used: int)
    ensures |lines| <= |blocks|
    ensures forall i | 0 <= i < |lines| :: lines[i] == BlockLine(blocks[i])
    ensures used == PrefixTokens(blocks, |lines|)
    ensures used <= budget || lines == []
    ensures |lines| < |blocks| ==> used + LineTokens(blocks[|lines|]) > budget
    ensures |lines| <= Max(budget, 0)
  {
    lines := [];
    used := 0;
    var i := 0;
    while i < |blocks|
      invariant 0 <= i <= |blocks| && |lines| == i
      invariant forall j | 0 <= j < i :: lines[j] == BlockLine(blocks[j])
      invariant used == PrefixTokens(blocks, i)
      invariant used <= budget || i == 0
      invariant i <= used
    {
      var text := BlockLine(blocks[i]);
      var cost := |Tokenize(text)|;
      if used + cost > budget {
        break;
      }
      LineTokensExact(blocks[i]);
      AppendLine(blocks, lines, text);
      lines := lines + [text];
      used := used + cost;
      i := i + 1;
    }
  }

  /** The loop invariant on the lines after one more is appended, kept
      out of the loop's proof to keep it cheap (a solver-cost aid). */
  lemma AppendLine(blocks: seq<MemoryBlock>, lines: seq<string>, text: string)
    requires |lines| < |blocks| && text == BlockLine(blocks[|lines|])
    requires forall j | 0 <= j < |lines| :: lines[j] == BlockLine(blocks[j])
    ensures forall j | 0 <= j < |lines| + 1 :: (lines + [text])[j] == BlockLine(blocks[j])
  {
  }

  /** The packed context of the prompt: the lines joined by newlines, or
      `None.` when no block fitted. */
  function MemoryContext(lines: seq<string>): (r: string)
    ensures lines == [] ==> r == "None."
    ensures |lines| == 1 ==> r == lines[0]
    ensures lines != [] && (forall i | 0 <= i < |lines| :: '\n' !in lines[i]) ==> Split(r, '\n') == lines
  {
    if lines == [] then "None."
    else
      JoinSplit(lines, '\n');
      Join("\n", lines)
  }

  /** The recent chat of the prompt: the last six turns rendered one per
      line, or `None.` for a new session. */
  function HistoryText(history: seq<HistoryEntry>): (r: string)
    ensures history == [] ==> r == "None."
    ensures |history| == 1 ==> r == HistoryEntryText(history[0])
    ensures history != [] && (forall e | e in Last(history, 6) :: '\n' !in HistoryEntryText(e)) ==>
      Split(r, '\n') == EntryTexts(Last(history, 6))
  {
    var recent := EntryTexts(Last(history, 6));
    if recent == [] then "None."
    else
      JoinSplit(recent, '\n');
      Join("\n", recent)
  }
}
