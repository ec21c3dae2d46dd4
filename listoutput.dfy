/** The keyword-list maintenance script: it parses pasted result lines of the form
    `N. label (p)`, reads the keyword list of one category from the category map
    source file, merges the new labels into it as a sorted set, formats the list
    eight items to a line and writes the block back in place. */
module ListOutput {
  import opened Wrappers
  import opened Text

  /** `c_list`: the categories the script can update. */
  const CategoryChoices: seq<string> :=
    ["Animal (category)", "Sports (category)", "Machine (category)", "Landscape (category)", "Human (category)"]

  /** The category the script is set to update, `c_list[4]`. */
  const SelectedCategory: string := CategoryChoices[4]

  // ---------------------------------------------------------------------------
  // Label parsing

  /** `line.split(". ", 1)[1].split(" (")[0].lower()`: the text after the first
      `". "` up to the first `" ("`, lower-cased; a line without `". "` has no
      second piece and raises `IndexError`. */
  function ParseLabel(line: string): (r: Result<string>)
    ensures r.Failure? <==> Find(line, ". ", 0).None?
    ensures r.Failure? ==> r.error == IndexOutOfRange
  {
    match Find(line, ". ", 0)
    case None => Failure(IndexOutOfRange)
    case Some(j) =>
      var rest := line[j + 2..];
      var head := match Find(rest, " (", 0) case Some(k) => rest[..k] case None => rest;
      Success(Lower(head))
  }

  /** A result line as the application shows it: rank, `". "`, label, `" ("`, the
      probability text and `")"`. */
  function ResultLine(rank: nat, name: string, prob: string): string
  {
    NatToString(rank) + ". " + name + " (" + prob + ")"
  }

  /** Parsing a result line gives back its label, lower-cased, whenever the label
      itself contains no `" ("`. */
  lemma ParseResultLine(rank: nat, name: string, prob: string)
    requires forall k :: !OccursAt(name, " (", k)
    ensures ParseLabel(ResultLine(rank, name, prob)) == Success(Lower(name))
  {
    var d := NatToString(rank);
    var rest := name + " (" + prob + ")";
    assert ResultLine(rank, name, prob) == d + ". " + rest;
    FirstSeparatorAfterDigits(d, rest);
    FirstParenAfterName(name, prob);
    assert (d + ". " + rest)[|d| + 2..] == rest;
    assert rest[..|name|] == name;
  }

  /** In `d + ". " + rest` with `d` all digits, the first `". "` follows `d`. */
  lemma FirstSeparatorAfterDigits(d: string, rest: string)
    requires forall k :: 0 <= k < |d| ==> IsDigit(d[k])
    ensures Find(d + ". " + rest, ". ", 0) == Some(|d|)
  {
    var line := d + ". " + rest;
    forall k | 0 <= k < |d| ensures !OccursAt(line, ". ", k) {
      assert line[k] == d[k];
    }
    assert line[|d|..|d| + 2] == ". ";
    FindIsFirst(line, ". ", 0, |d|);
  }

  /** In `name + " (" + prob + ")"`, when `name` has no `" ("`, the first one follows
      `name`. */
  lemma FirstParenAfterName(name: string, prob: string)
    requires forall k :: !OccursAt(name, " (", k)
    ensures Find(name + " (" + prob + ")", " (", 0) == Some(|name|)
  {
    var rest := name + " (" + prob + ")";
    forall k | 0 <= k < |name| ensures !OccursAt(rest, " (", k) {
      if k + 2 <= |name| {
        assert rest[k..k + 2] == name[k..k + 2];
        assert !OccursAt(name, " (", k);
      } else {
        assert rest[k + 1] == ' ';
      }
    }
    assert rest[|name|..|name| + 2] == " (";
    FindIsFirst(rest, " (", 0, |name|);
  }

  /** The labels of every line, or the first line's error. */
  function ParseLines(lines: seq<string>): (r: Result<seq<string>>)
    ensures r.Success? <==> forall k :: 0 <= k < |lines| ==> ParseLabel(lines[k]).Success?
    ensures r.Success? ==> |r.value| == |lines| && forall k :: 0 <= k < |lines| ==> r.value[k] == ParseLabel(lines[k]).value
    ensures r.Failure? ==> r.error == IndexOutOfRange
  {
    if |lines| == 0 then Success([])
    else match ParseLabel(lines[0])
      case Failure(e) => Failure(e)
      case Success(x) =>
        match ParseLines(lines[1..])
        case Failure(e) => Failure(e)
        case Success(xs) => Success([x] + xs)
  }

  /** `INPUT_TEXT.strip().split("\n")` and one label per line. */
  function ParseLabels(inputText: string): Result<seq<string>>
  {
    ParseLines(SplitOn(Strip(inputText), '\n'))
  }

  // ---------------------------------------------------------------------------
  // Existing items and the merge

  /** `[s.strip().strip('"') for s in text.split(",") if s.strip()]`. */
  function CurrentItems(matched: string): seq<string>
  {
    ItemsOf(SplitOn(matched, ','))
  }

  function ItemsOf(pieces: seq<string>): (r: seq<string>)
    ensures |r| <= |pieces|
  {
    if |pieces| == 0 then []
    else
      var s := Strip(pieces[0]);
      (if s != "" then [StripChar(s, '"')] else []) + ItemsOf(pieces[1..])
  }

  /** Every piece that is not blank gives one item, its spaces and quotes stripped. */
  lemma {:induction false} ItemsOfMembership(pieces: seq<string>, x: string)
    ensures x in ItemsOf(pieces) <==>
              exists k :: 0 <= k < |pieces| && Strip(pieces[k]) != "" && StripChar(Strip(pieces[k]), '"') == x
    decreases |pieces|
  {
    if |pieces| > 0 {
      ItemsOfMembership(pieces[1..], x);
      if exists k :: 0 <= k < |pieces[1..]| && Strip(pieces[1..][k]) != "" && StripChar(Strip(pieces[1..][k]), '"') == x {
        var k :| 0 <= k < |pieces[1..]| && Strip(pieces[1..][k]) != "" && StripChar(Strip(pieces[1..][k]), '"') == x;
        assert pieces[k + 1] == pieces[1..][k];
      }
      if exists k :: 0 <= k < |pieces| && Strip(pieces[k]) != "" && StripChar(Strip(pieces[k]), '"') == x {
        var k :| 0 <= k < |pieces| && Strip(pieces[k]) != "" && StripChar(Strip(pieces[k]), '"') == x;
        if k > 0 {
          assert pieces[1..][k - 1] == pieces[k];
        }
      }
    }
  }

  /** Python's order on strings; `sorted` lists each value before every larger one. */
  predicate StrictlyAscending(s: seq<string>)
  {
    forall i, j :: 0 <= i < j < |s| ==> LexLess(s[i], s[j])
  }

  /** Inserts `x` into a strictly ascending list unless it is already there. */
  function InsertSorted(x: string, r: seq<string>): (t: seq<string>)
    ensures forall y :: y in t <==> y == x || y in r
  {
    if r == [] then [x]
    else if x == r[0] then r
    else if LexLess(x, r[0]) then [x] + r
    else [r[0]] + InsertSorted(x, r[1..])
  }

  lemma {:induction false} InsertSortedAscending(x: string, r: seq<string>)
    requires StrictlyAscending(r)
    ensures StrictlyAscending(InsertSorted(x, r))
    decreases |r|
  {
    if r != [] && x != r[0] {
      var t := InsertSorted(x, r);
      if LexLess(x, r[0]) {
        forall j | 0 < j < |t| ensures LexLess(t[0], t[j]) {
          if j > 1 {
            LexLessTransitive(x, r[0], r[j - 1]);
          }
        }
      } else {
        LexLessTotal(x, r[0]);
        InsertSortedAscending(x, r[1..]);
        var rest := InsertSorted(x, r[1..]);
        assert t == [r[0]] + rest;
        forall j | 0 < j < |t| ensures LexLess(t[0], t[j]) {
          assert t[j] == rest[j - 1];
          assert t[j] in rest;
          if t[j] != x {
            var m :| 0 <= m < |r[1..]| && r[1..][m] == t[j];
            assert r[m + 1] == t[j];
          }
        }
      }
    }
  }

  /** `sorted(set(s))`. */
  function SortedSet(s: seq<string>): (r: seq<string>)
    ensures forall y :: y in r <==> y in s
  {
    if s == [] then [] else InsertSorted(s[0], SortedSet(s[1..]))
  }

  /** The merged list is strictly ascending, so it holds no value twice, and holds
      exactly the values of both lists. */
  lemma {:induction false} SortedSetAscending(s: seq<string>)
    ensures StrictlyAscending(SortedSet(s))
    decreases |s|
  {
    if s != [] {
      SortedSetAscending(s[1..]);
      InsertSortedAscending(s[0], SortedSet(s[1..]));
    }
  }

  /** `sorted(set(current_items + labels))`. */
  function Merge(current: seq<string>, labels: seq<string>): seq<string>
  {
    SortedSet(current + labels)
  }

  lemma MergeIsSortedUnion(current: seq<string>, labels: seq<string>)
    ensures StrictlyAscending(Merge(current, labels))
    ensures forall y :: y in Merge(current, labels) <==> y in current || y in labels
  {
    SortedSetAscending(current + labels);
  }

  // ---------------------------------------------------------------------------
  // Formatting

  const LineWrap: nat := 8
  const Indent: string := "        "

  /** `f'"{item}", '`. */
  function Quoted(item: string): string
  {
    "\"" + item + "\", "
  }

  /** What the loop appends for the `i`-th item (counting from 1): an indent before
      the first item of each line, a newline after every eighth item. */
  function Chunk(i: nat, item: string): string
    requires i >= 1
  {
    (if (i - 1) % LineWrap == 0 then Indent else "") + Quoted(item) + (if i % LineWrap == 0 then "\n" else "")
  }

  /** `formatted_items` after the loop, before the trailing characters are stripped. */
  function Rendered(items: seq<string>): string
  {
    if |items| == 0 then "" else Rendered(items[..|items| - 1]) + Chunk(|items|, items[|items| - 1])
  }

  /** The characters `rstrip(", \n")` removes. */
  predicate IsTrailing(c: char)
  {
    c == ',' || c == ' ' || c == '\n'
  }

  /** `formatted_items.rstrip(", \n")`. */
  function FormattedItems(items: seq<string>): string
  {
    TrimRight(Rendered(items), IsTrailing)
  }

  /** The formatting loop. */
  method FormatItems(mergedItems: seq<string>) returns (formattedItems: string)
    ensures formattedItems == FormattedItems(mergedItems)
  {
    formattedItems := "";
    var i := 1;
    while i <= |mergedItems|
      invariant 1 <= i <= |mergedItems| + 1
      invariant formattedItems == Rendered(mergedItems[..i - 1])
    {
      var item := mergedItems[i - 1];
      assert mergedItems[..i][..i - 1] == mergedItems[..i - 1];
      if (i - 1) % LineWrap == 0 {
        formattedItems := formattedItems + Indent;
      }
      formattedItems := formattedItems + Quoted(item);
      if i % LineWrap == 0 {
        formattedItems := formattedItems + "\n";
      }
      i := i + 1;
    }
    assert mergedItems[..i - 1] == mergedItems;
    formattedItems := TrimRight(formattedItems, IsTrailing);
  }

  /** The items of one line, each quoted and followed by `", "`. */
  function QuotedAll(g: seq<string>): string
  {
    if |g| == 0 then "" else QuotedAll(g[..|g| - 1]) + Quoted(g[|g| - 1])
  }

  /** One output line: the indent, the quoted items, and a newline when the line is full. */
  function Line(g: seq<string>): string
  {
    Indent + QuotedAll(g) + (if |g| == LineWrap then "\n" else "")
  }

  /** The layout by lines: eight items per line, the last line possibly shorter. */
  function Wrapped(items: seq<string>): string
    decreases |items|
  {
    if |items| == 0 then ""
    else if |items| <= LineWrap then Line(items)
    else Line(items[..LineWrap]) + Wrapped(items[LineWrap..])
  }

  /** Within the first line the indent comes only before item 1 and the newline
      only after item 8. */
  lemma ChunkInFirstLine(i: nat, item: string)
    requires 1 <= i <= LineWrap
    ensures Chunk(i, item) == (if i == 1 then Indent else "") + Quoted(item) + (if i == LineWrap then "\n" else "")
  {
  }

  lemma {:induction false} RenderedShort(items: seq<string>)
    requires 1 <= |items| <= LineWrap
    ensures Rendered(items) == Line(items)
    decreases |items|
  {
    var n := |items|;
    var init, x := items[..n - 1], items[n - 1];
    var nl := if n == LineWrap then "\n" else "";
    ChunkInFirstLine(n, x);
    if n == 1 {
      RegroupFirst(Indent, Quoted(x), nl);
    } else {
      RenderedShort(init);
      RegroupLine(Indent, QuotedAll(init), Quoted(x), nl);
    }
  }

  lemma RegroupFirst<T>(p: seq<T>, r: seq<T>, t: seq<T>)
    ensures [] + (p + r + t) == p + ([] + r) + t
  {
  }

  lemma RegroupLine<T>(p: seq<T>, q: seq<T>, r: seq<T>, t: seq<T>)
    ensures p + q + [] + ([] + r + t) == p + (q + r) + t
  {
  }

  /** Positions eight apart open and close lines alike. */
  lemma ChunkPeriodic(m: nat, n: nat, item: string)
    requires m % LineWrap == 0 && n >= 1
    ensures Chunk(m + n, item) == Chunk(n, item)
  {
    assert (m + n - 1) % LineWrap == (n - 1) % LineWrap;
    assert (m + n) % LineWrap == n % LineWrap;
  }

  lemma {:induction false} RenderedShift(a: seq<string>, b: seq<string>)
    requires |a| % LineWrap == 0
    ensures Rendered(a + b) == Rendered(a) + Rendered(b)
    decreases |b|
  {
    if |b| == 0 {
      assert a + b == a;
    } else {
      var n := |b|;
      var init, x := b[..n - 1], b[n - 1];
      var ab := a + b;
      assert ab[..|ab| - 1] == a + init && ab[|ab| - 1] == x;
      RenderedShift(a, init);
      ChunkPeriodic(|a|, n, x);
      AppendStep(Rendered(a), Rendered(init), Chunk(n, x), Rendered(a + init), Rendered(ab), Rendered(b));
    }
  }

  lemma AppendStep<T>(x: seq<T>, y: seq<T>, c: seq<T>, xy: seq<T>, xyc: seq<T>, yc: seq<T>)
    requires xy == x + y && xyc == xy + c && yc == y + c
    ensures xyc == x + yc
  {
  }

  /** The per-item loop lays the items out as lines of eight, each indented and
      each full line ending in a newline. */
  lemma {:induction false} RenderedIsWrapped(items: seq<string>)
    ensures Rendered(items) == Wrapped(items)
    decreases |items|
  {
    if |items| > LineWrap {
      assert items == items[..LineWrap] + items[LineWrap..];
      RenderedShift(items[..LineWrap], items[LineWrap..]);
      RenderedShort(items[..LineWrap]);
      RenderedIsWrapped(items[LineWrap..]);
    } else if |items| > 0 {
      RenderedShort(items);
    }
  }

  /** Stripping a tail of trailing characters after a character that is not one of them. */
  lemma TrimRightTail(body: string, tail: string)
    requires body != [] && !IsTrailing(body[|body| - 1])
    requires forall k :: 0 <= k < |tail| ==> IsTrailing(tail[k])
    ensures TrimRight(body + tail, IsTrailing) == body
  {
    var s := body + tail;
    var r := TrimRight(s, IsTrailing);
    TrimRightFacts(s, IsTrailing);
    assert s[|body| - 1] == body[|body| - 1];
    assert r == s[..|body|] == body;
  }

  /** The stripping removes exactly the `", "` after the last item and, when the last
      line is full, its newline: the text then ends with the last item's closing quote. */
  lemma FormattedEndsAtLastItem(items: seq<string>)
    requires |items| > 0
    ensures var f := FormattedItems(items);
            var n := |Rendered(items)|;
            && 0 < |f| <= n
            && f == Rendered(items)[..|f|]
            && n - |f| == (if |items| % LineWrap == 0 then 3 else 2)
            && f[|f| - 1] == '"'
  {
    var m := |items|;
    var last := items[m - 1];
    var ind := if (m - 1) % LineWrap == 0 then Indent else "";
    var nl := if m % LineWrap == 0 then "\n" else "";
    var q, sep := "\"", ", ";
    var body := Rendered(items[..m - 1]) + ind + q + last + q;
    var tail := sep + nl;
    assert Quoted(last) == q + last + (q + sep);
    RegroupLastChunk(Rendered(items[..m - 1]), ind, q, last, sep, nl);
    TrimRightTail(body, tail);
  }

  lemma RegroupLastChunk<T>(r: seq<T>, ind: seq<T>, q: seq<T>, last: seq<T>, sep: seq<T>, nl: seq<T>)
    ensures r + (ind + (q + last + (q + sep)) + nl) == r + ind + q + last + q + (sep + nl)
  {
  }

  // ---------------------------------------------------------------------------
  // Rewriting the category's block

  /** `f'"{Cotegory}": [s.lower() for s in ['`. */
  function StartToken(category: string): string
  {
    "\"" + category + "\": [s.lower() for s in ["
  }

  const EndToken: string := "]]"

  /** `start_index += len(start_token)`: where the items begin. */
  function TokenEnd(s: nat, token: string): nat
  {
    s + |token|
  }

  /** The new block: the start token, the formatted items on their own lines and the
      closing `]]` indented by four spaces. */
  function NewBlock(category: string, items: seq<string>): string
  {
    StartToken(category) + "\n" + FormattedItems(items) + "\n    ]]"
  }

  /** The items of the old block, between the token's end and the `]]`. */
  function OldItems(content: string, from: nat, e: nat): seq<string>
    requires from <= e <= |content|
  {
    CurrentItems(content[from..e])
  }

  /** The block that replaces the one from the start token at `s` to the `]]` at `e`:
      the old items merged with the new labels. */
  function MergedBlock(content: string, category: string, labels: seq<string>, s: nat, e: nat): string
    requires TokenEnd(s, StartToken(category)) <= e <= |content|
  {
    NewBlock(category, Merge(OldItems(content, TokenEnd(s, StartToken(category)), e), labels))
  }

  /** The file with the block from the start token at `s` to the `]]` at `e`
      replaced by the new block. */
  function SpliceAt(content: string, category: string, labels: seq<string>, s: nat, e: nat): string
    requires TokenEnd(s, StartToken(category)) <= e && e + 2 <= |content|
  {
    content[..s] + MergedBlock(content, category, labels, s, e) + content[e + 2..]
  }

  /** The rewritten file content, or `None` when the start token, or a `]]` after it,
      is missing (the file is then left as it is). */
  function Rewrite(content: string, category: string, labels: seq<string>): Option<string>
  {
    var token := StartToken(category);
    match Find(content, token, 0)
    case None => None
    case Some(s) =>
      match Find(content, EndToken, TokenEnd(s, token))
      case None => None
      case Some(e) => Some(SpliceAt(content, category, labels, s, e))
  }

  /** Two texts that agree on their first `n` characters have the same occurrences
      of `token` within them. */
  lemma SamePrefixSameOccurrences(a: string, b: string, token: string, n: nat)
    requires n <= |a| && n <= |b| && a[..n] == b[..n]
    ensures forall j: nat :: j + |token| <= n ==> (OccursAt(a, token, j) <==> OccursAt(b, token, j))
  {
    forall j: nat | j + |token| <= n ensures OccursAt(a, token, j) <==> OccursAt(b, token, j) {
      assert a[j..j + |token|] == a[..n][j..j + |token|];
      assert b[j..j + |token|] == b[..n][j..j + |token|];
    }
  }

  /** The splice agrees with the old text up to the end of the token. */
  lemma SplicePrefix(content: string, token: string, s: nat, block: string, e2: nat)
    requires Find(content, token, 0) == Some(s)
    requires |token| <= |block| && block[..|token|] == token
    requires s <= e2 <= |content|
    ensures var c := content[..s] + block + content[e2..];
            s + |token| <= |c| && c[..s + |token|] == content[..s + |token|]
  {
    FindFacts(content, token, 0);
    var c := content[..s] + block + content[e2..];
    var n := s + |token|;
    forall i | 0 <= i < n ensures c[i] == content[i] {
      if s <= i {
        assert c[i] == block[i - s] == token[i - s];
        assert content[s..n][i - s] == content[i];
      }
    }
  }

  /** A text that agrees with `content` up to the end of the first occurrence of
      `token` has its first occurrence at the same place. */
  lemma FirstOccurrenceKept(c: string, content: string, token: string, s: nat)
    requires Find(content, token, 0) == Some(s)
    requires s + |token| <= |c| && c[..s + |token|] == content[..s + |token|]
    ensures Find(c, token, 0) == Some(s)
  {
    FindFacts(content, token, 0);
    FirstOccurrenceInPrefix(c, content, token, s);
    FindIsFirst(c, token, 0, s);
  }

  lemma FirstOccurrenceInPrefix(c: string, content: string, token: string, s: nat)
    requires OccursAt(content, token, s) && forall j :: 0 <= j < s ==> !OccursAt(content, token, j)
    requires s + |token| <= |c| && s + |token| <= |content| && c[..s + |token|] == content[..s + |token|]
    ensures OccursAt(c, token, s) && forall j :: 0 <= j < s ==> !OccursAt(c, token, j)
  {
    SamePrefixSameOccurrences(c, content, token, s + |token|);
  }

  /** Replacing `content[s..e2]` by a block that starts with the token found first at
      `s` keeps that token the first one, at `s`: with `SpliceAtIsSplice`, a later run
      of the script finds the block it wrote. */
  lemma SpliceKeepsFirstOccurrence(content: string, token: string, s: nat, block: string, e2: nat, c: string)
    requires Find(content, token, 0) == Some(s)
    requires |token| <= |block| && block[..|token|] == token
    requires s <= e2 <= |content|
    requires c == content[..s] + block + content[e2..]
    ensures Find(c, token, 0) == Some(s)
  {
    SplicePrefix(content, token, s, block, e2);
    FirstOccurrenceKept(c, content, token, s);
  }

  /** The file is left alone exactly when the start token, or a `]]` after it, is
      missing. */
  lemma RewriteNotFound(content: string, category: string, labels: seq<string>)
    ensures var token := StartToken(category);
            Rewrite(content, category, labels).None? <==>
              Find(content, token, 0).None? || Find(content, EndToken, TokenEnd(Find(content, token, 0).value, token)).None?
  {
  }

  /** When both are found, the block between the first start token and the first
      `]]` after it is the one replaced. */
  lemma RewriteFound(content: string, category: string, labels: seq<string>, s: nat, e: nat)
    requires Find(content, StartToken(category), 0) == Some(s)
    requires Find(content, EndToken, TokenEnd(s, StartToken(category))) == Some(e)
    ensures TokenEnd(s, StartToken(category)) <= e && e + 2 <= |content|
    ensures Rewrite(content, category, labels) == Some(SpliceAt(content, category, labels, s, e))
  {
  }

  /** What the rewrite keeps: the text before the start token and after the closing
      `]]`. */
  lemma SpliceAtKeepsSurroundings(content: string, category: string, labels: seq<string>, s: nat, e: nat)
    requires TokenEnd(s, StartToken(category)) <= e && e + 2 <= |content|
    ensures var c := SpliceAt(content, category, labels, s, e);
            && c[..s] == content[..s]
            && c[|c| - (|content| - (e + 2))..] == content[e + 2..]
  {
    SpliceAtIsSplice(content, category, labels, s, e);
    ConcatParts(content[..s], MergedBlock(content, category, labels, s, e), content[e + 2..]);
  }

  lemma ConcatParts<T>(a: seq<T>, b: seq<T>, c: seq<T>)
    ensures (a + b + c)[..|a|] == a
    ensures (a + b + c)[|a + b + c| - |c|..] == c
  {
  }

  /** The rewritten file is the text before the start token, a block that starts
      with the start token, and the text after the `]]`. */
  lemma SpliceAtIsSplice(content: string, category: string, labels: seq<string>, s: nat, e: nat)
    requires TokenEnd(s, StartToken(category)) <= e && e + 2 <= |content|
    ensures SpliceAt(content, category, labels, s, e) == content[..s] + MergedBlock(content, category, labels, s, e) + content[e + 2..]
    ensures |StartToken(category)| <= |MergedBlock(content, category, labels, s, e)|
    ensures MergedBlock(content, category, labels, s, e)[..|StartToken(category)|] == StartToken(category)
    ensures s <= e + 2
  {
    NewBlockStartsWithToken(category, Merge(OldItems(content, TokenEnd(s, StartToken(category)), e), labels));
  }

  /** What the new block lists: the old items and the new labels, sorted, without
      repetition. */
  lemma SpliceAtItems(content: string, category: string, labels: seq<string>, s: nat, e: nat)
    requires TokenEnd(s, StartToken(category)) <= e && e + 2 <= |content|
    ensures var existing := OldItems(content, TokenEnd(s, StartToken(category)), e);
            var merged := Merge(existing, labels);
            && SpliceAt(content, category, labels, s, e) == content[..s] + NewBlock(category, merged) + content[e + 2..]
            && StrictlyAscending(merged)
            && (forall y :: y in merged <==> y in existing || y in labels)
  {
    MergeIsSortedUnion(OldItems(content, TokenEnd(s, StartToken(category)), e), labels);
  }

  lemma NewBlockStartsWithToken(category: string, items: seq<string>)
    ensures |StartToken(category)| <= |NewBlock(category, items)|
    ensures NewBlock(category, items)[..|StartToken(category)|] == StartToken(category)
  {
  }

  // ---------------------------------------------------------------------------
  // The script

  datatype RunOutcome = Updated | CategoryNotFound | EndNotFound | Crashed(error: Error)

  /** The category map source file. */
  class CategoryMapFile {
    var content: string

    constructor (initial: string)
      ensures content == initial
    {
      content := initial;
    }

    /** The whole script: parse the pasted lines (a malformed line raises before the
        file is read), find the category's block, merge and format its items and
        write the file back; when the block is not found the file is not written. */
    method Run(category: string, inputText: string) returns (outcome: RunOutcome)
      modifies this
      ensures ParseLabels(inputText).Failure? ==>
                outcome == Crashed(ParseLabels(inputText).error) && content == old(content)
      ensures ParseLabels(inputText).Success? ==>
                match Rewrite(old(content), category, ParseLabels(inputText).value)
                case Some(c) => outcome == Updated && content == c
                case None => outcome in {CategoryNotFound, EndNotFound} && content == old(content)
      ensures ParseLabels(inputText).Success? ==>
                (outcome == CategoryNotFound <==> Find(old(content), StartToken(category), 0).None?)
    {
      var parsed := ParseLabels(inputText);
      if parsed.Failure? {
        return Crashed(parsed.error);
      }
      var labels := parsed.value;
      var startToken := StartToken(category);
      var found := Find(content, startToken, 0);
      if found.None? {
        return CategoryNotFound;
      }
      var startIndex := TokenEnd(found.value, startToken);
      var endIndex := Find(content, EndToken, startIndex);
      if endIndex.None? {
        return EndNotFound;
      }
      var matchedText := content[startIndex..endIndex.value];
      var currentItems := CurrentItems(matchedText);
      var mergedItems := Merge(currentItems, labels);
      var formattedItems := FormatItems(mergedItems);
      var newBlock := startToken + "\n" + formattedItems + "\n    ]]";
      assert newBlock == NewBlock(category, mergedItems);
      RewriteFound(content, category, labels, found.value, endIndex.value);
      assert SpliceAt(content, category, labels, found.value, endIndex.value)
          == content[..found.value] + newBlock + content[endIndex.value + 2..];
      content := content[..found.value] + newBlock + content[endIndex.value + 2..];
      outcome := Updated;
    }
  }
}
