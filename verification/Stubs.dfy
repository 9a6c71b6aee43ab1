/** Text helpers of the stub generator: splitting a signature, keeping safe defaults, and SCREAMING_SNAKE names. */
module Stubs {
  import opened Common

  // ----- splitting on top-level commas

  predicate Opens(c: char) { c == '(' || c == '<' || c == '[' }

  predicate Shuts(c: char) { c == ')' || c == '>' || c == ']' }

  /** Bracket depth after a text; a stray closing bracket takes it below zero. */
  function Depth(s: string): int {
    if s == [] then 0
    else
      var front, c := Depth(s[..|s| - 1]), s[|s| - 1];
      if Opens(c) then front + 1 else if Shuts(c) then front - 1 else front
  }

  /** A comma at depth zero of the text it stands in. */
  predicate TopComma(s: string, i: nat)
    requires i < |s|
  {
    s[i] == ',' && Depth(s[..i]) == 0
  }

  ghost predicate NoTopComma(s: string) {
    forall i :: 0 <= i < |s| ==> !TopComma(s, i)
  }

  function Join(parts: seq<string>): string {
    if parts == [] then ""
    else if |parts| == 1 then parts[0]
    else Join(parts[..|parts| - 1]) + "," + parts[|parts| - 1]
  }

  /** The text of closed pieces followed by an open one. */
  function Text(parts: seq<string>, current: string): string {
    if parts == [] then current else Join(parts) + "," + current
  }

  ghost predicate Pieces(parts: seq<string>) {
    forall k :: 0 <= k < |parts| ==> NoTopComma(parts[k]) && Depth(parts[k]) == 0
  }

  lemma TextClose(parts: seq<string>, current: string)
    ensures Text(parts + [current], "") == Text(parts, current) + ","
    ensures Join(parts + [current]) == Text(parts, current)
  {
    assert (parts + [current])[..|parts|] == parts;
    assert Join(parts + [current]) + "," + "" == Join(parts + [current]) + ",";
  }

  lemma TextGrow(parts: seq<string>, current: string, c: char)
    ensures Text(parts, current + [c]) == Text(parts, current) + [c]
  {
    if parts != [] {
      assert Join(parts) + "," + (current + [c]) == Join(parts) + "," + current + [c];
    }
  }

  lemma GrowPiece(current: string, c: char)
    requires NoTopComma(current) && !(c == ',' && Depth(current) == 0)
    ensures NoTopComma(current + [c])
    ensures Depth(current + [c]) == if Opens(c) then Depth(current) + 1 else if Shuts(c) then Depth(current) - 1 else Depth(current)
  {
    var s := current + [c];
    assert s[..|current|] == current;
    forall i | 0 <= i < |s|
      ensures !TopComma(s, i)
    {
      if i < |current| {
        assert s[..i] == current[..i];
        assert !TopComma(current, i);
      }
    }
  }

  /**
   Splits a text at its top-level commas.  Joining the pieces gives the text back, up to one trailing comma; no piece
   has a top-level comma of its own; and every piece but the last is balanced.
   */
  method SplitSignatureParams(s: string) returns (params: seq<string>)
    ensures s == Join(params) || (params != [] && s == Join(params) + ",")
    ensures forall k :: 0 <= k < |params| ==> NoTopComma(params[k])
    ensures params != [] ==> Pieces(params[..|params| - 1])
    ensures s == "" <==> params == []
  {
    hide Join, NoTopComma, Depth;
    params := [];
    var depth, current := 0, "";
    EmptyPiece();
    for i := 0 to |s|
      invariant s[..i] == Text(params, current)
      invariant Pieces(params) && NoTopComma(current) && depth == Depth(current)
    {
      var c := s[i];
      assert s[..i + 1] == s[..i] + [c];
      TextGrow(params, current, c);
      if Opens(c) {
        GrowPiece(current, c);
        depth := depth + 1;
        current := current + [c];
      } else if Shuts(c) {
        GrowPiece(current, c);
        depth := depth - 1;
        current := current + [c];
      } else if c == ',' && depth == 0 {
        TextClose(params, current);
        params := params + [current];
        current := "";
      } else {
        GrowPiece(current, c);
        current := current + [c];
      }
    }
    assert s[..|s|] == s;
    if current != "" {
      TextClose(params, current);
      params := params + [current];
      assert params[..|params| - 1] + [current] == params;
    } else {
      TrailingComma(params);
    }
  }

  ghost predicate NoBrackets(s: string) {
    forall i :: 0 <= i < |s| ==> s[i] !in "(<[)>]"
  }

  lemma {:induction false} DepthUnchanged(current: string, s: string)
    requires NoBrackets(s) && NoTopComma(current) && (Depth(current) != 0 || forall i :: 0 <= i < |s| ==> s[i] != ',')
    ensures Depth(current + s) == Depth(current) && NoTopComma(current + s)
  {
    if s == "" {
      assert current + s == current;
    } else {
      hide NoTopComma, Depth;
      var front, c := s[..|s| - 1], s[|s| - 1];
      DepthUnchanged(current, front);
      assert current + s == (current + front) + [c];
      GrowPiece(current + front, c);
    }
  }

  /** Round, angle and square brackets each keep the commas between them. */
  lemma BracketsKeepCommas(open: char, shut: char, name: string, inner: string)
    requires (open, shut) in {('(', ')'), ('<', '>'), ('[', ']')}
    requires NoBrackets(name) && NoBrackets(inner) && forall i :: 0 <= i < |name| ==> name[i] != ','
    ensures NoTopComma(name + [open] + inner + [shut]) && Depth(name + [open] + inner + [shut]) == 0
  {
    hide NoTopComma, Depth;
    EmptyPiece();
    DepthUnchanged("", name);
    assert "" + name == name;
    GrowPiece(name, open);
    DepthUnchanged(name + [open], inner);
    GrowPiece(name + [open] + inner, shut);
  }

  lemma EmptyPiece()
    ensures NoTopComma("") && Depth("") == 0
  {
  }

  lemma TrailingComma(parts: seq<string>)
    ensures Text(parts, "") == if parts == [] then Join(parts) else Join(parts) + ","
  {
  }

  // ----- safe defaults

  datatype Param = Param(name: string, default: Option<string>)

  ghost predicate AllDefaulted(params: seq<Param>) {
    forall i :: 0 <= i < |params| ==> params[i].default.Some?
  }

  /** Names to defaults; of two parameters of one name the earlier one counts. */
  function Defaults(params: seq<Param>): map<string, string>
    requires AllDefaulted(params)
  {
    if params == [] then map[] else Defaults(params[1..])[params[0].name := params[0].default.value]
  }

  /** Where the longest suffix of parameters with a default begins. */
  ghost predicate SafeFrom(params: seq<Param>, k: nat) {
    k <= |params| && AllDefaulted(params[k..]) && (k > 0 ==> params[k - 1].default == None)
  }

  ghost function SafeStart(params: seq<Param>): (k: nat)
    ensures SafeFrom(params, k)
    ensures forall j :: 0 <= j < k ==> !AllDefaulted(params[j..])
  {
    if params == [] || params[|params| - 1].default == None then
      assert forall j :: 0 <= j < |params| ==> params[j..][|params| - 1 - j] == params[|params| - 1];
      |params|
    else
      var front := params[..|params| - 1];
      var k := SafeStart(front);
      assert forall j :: 0 <= j <= |front| ==> params[j..] == front[j..] + [params[|params| - 1]];
      assert forall j :: 0 <= j < k ==> !AllDefaulted(front[j..]);
      assert forall j, i :: 0 <= j < k && 0 <= i < |front| - j ==> params[j..][i] == front[j..][i];
      k
  }

  lemma SafeFromUnique(params: seq<Param>, j: nat, k: nat)
    requires SafeFrom(params, j) && SafeFrom(params, k)
    ensures j == k
  {
  }

  /** Walks from the right; the kept defaults are exactly those of the longest suffix without a required parameter. */
  method FilterSafeDefaults(params: seq<Param>) returns (safe: Option<map<string, string>>)
    ensures safe == if SafeStart(params) == |params| then None else Some(Defaults(params[SafeStart(params)..]))
  {
    var kept: map<string, string>, sawRequired := map[], false;
    ghost var from := |params|;
    var i := |params|;
    while i > 0
      invariant 0 <= i <= from <= |params| && AllDefaulted(params[from..])
      invariant !sawRequired ==> from == i
      invariant sawRequired ==> from > 0 && params[from - 1].default == None
      invariant kept == Defaults(params[from..]) && (kept == map[] <==> from == |params|)
    {
      i := i - 1;
      var Param(name, default) := params[i];
      if default.Some? && !sawRequired {
        assert params[i..][1..] == params[i + 1..];
        assert forall j :: 0 < j < |params[i..]| ==> params[i..][j] == params[i + 1..][j - 1];
        kept := kept[name := default.value];
        from := i;
        assert name in kept;
      } else if default == None {
        sawRequired := true;
      }
    }
    SafeFromUnique(params, from, SafeStart(params));
    safe := if kept == map[] then None else Some(kept);
  }

  // ----- SCREAMING_SNAKE_CASE

  predicate IsUpper(c: char) { 'A' <= c <= 'Z' }

  predicate IsLower(c: char) { 'a' <= c <= 'z' }

  predicate IsDigit(c: char) { '0' <= c <= '9' }

  function Up(c: char): (u: char)
    ensures !IsLower(u) && (c != '_' ==> u != '_') && (IsDigit(u) <==> IsDigit(c))
    ensures if 'a' <= c <= 'z' then u as int - 'A' as int == c as int - 'a' as int else u == c
  {
    if IsLower(c) then (c as int - 'a' as int + 'A' as int) as char else c
  }

  function Upper(s: string): (u: string)
    ensures |u| == |s|
  {
    if s == [] then "" else Upper(s[..|s| - 1]) + [Up(s[|s| - 1])]
  }

  lemma {:induction false} UpperAt(s: string, i: nat)
    requires i < |s|
    ensures Upper(s)[i] == Up(s[i])
  {
    if i < |s| - 1 {
      UpperAt(s[..|s| - 1], i);
    }
  }

  /** Does a new word start at a capital, in the middle of a run without underscores? */
  predicate Break(s: string, i: nat)
    requires i < |s|
  {
    && i > 0 && IsUpper(s[i])
    && (IsLower(s[i - 1]) || IsDigit(s[i - 1])
        || (IsUpper(s[i - 1]) && i + 1 < |s| && (IsLower(s[i + 1]) || IsDigit(s[i + 1]))))
  }

  /** The name made of the first `n` characters: underscores collapse, capitals that start a word get one. */
  function Snake(s: string, n: nat): string
    requires n <= |s|
  {
    if n == 0 then ""
    else
      var done, c := Snake(s, n - 1), s[n - 1];
      if c == '_' then done
      else done + (if done != "" && (s[n - 2] == '_' || Break(s, n - 1)) then "_" else "") + [Up(c)]
  }

  function JoinWords(words: seq<string>): string {
    if words == [] then ""
    else if |words| == 1 then Upper(words[0])
    else JoinWords(words[..|words| - 1]) + "_" + Upper(words[|words| - 1])
  }

  /** The words so far and the one being read, as a name. */
  function Partial(words: seq<string>, current: string): string {
    JoinWords(if current == "" then words else words + [current])
  }

  lemma UpperAppend(s: string, c: char)
    ensures Upper(s + [c]) == Upper(s) + [Up(c)]
  {
    assert (s + [c])[..|s|] == s;
  }

  lemma PartialGrow(words: seq<string>, current: string, c: char)
    requires current != ""
    ensures Partial(words, current + [c]) == Partial(words, current) + [Up(c)]
  {
    UpperAppend(current, c);
    assert (words + [current])[..|words|] == words && (words + [current + [c]])[..|words|] == words;
  }

  lemma {:induction false} PartialStart(words: seq<string>, c: char)
    requires forall k :: 0 <= k < |words| ==> words[k] != ""
    ensures Partial(words, [c]) == Partial(words, "") + (if words == [] then "" else "_") + [Up(c)]
    ensures Partial(words, "") == "" <==> words == []
  {
    UpperAppend("", c);
    assert "" + [c] == [c];
    assert (words + [[c]])[..|words|] == words;
    if words != [] {
      JoinNotEmpty(words);
    }
  }

  lemma JoinNotEmpty(words: seq<string>)
    requires words != [] && forall k :: 0 <= k < |words| ==> words[k] != ""
    ensures JoinWords(words) != ""
  {
  }

  lemma PartialClose(words: seq<string>, current: string)
    requires current != ""
    ensures Partial(words + [current], "") == Partial(words, current)
  {
  }

  /** Reads the name into words and joins their upper-case forms. */
  method ToScreamingSnakeCase(name: string) returns (r: string)
    ensures r == Snake(name, |name|)
    ensures forall ws :: IsWords(ws) && Concat(ws) == name ==> r == JoinWords(ws)
  {
    hide Break, ReadTo, IsWords, Concat, JoinWords;
    WordsDecide(name);
    if name == "" {
      return name;
    }
    var words: seq<string>, current := [], "";
    ReadStart(name);
    for i := 0 to |name|
      invariant ReadTo(name, i, words, current)
    {
      var c := name[i];
      if c == '_' {
        ReadUnderscore(name, i, words, current);
        if current != "" {
          words := words + [current];
          current := "";
        }
        continue;
      }
      if IsUpper(c) && current != "" {
        if Break(name, i) {
          ReadBreak(name, i, words, current);
          words := words + [current];
          current := [c];
        } else {
          ReadOn(name, i, words, current);
          current := current + [c];
        }
      } else {
        NotABreak(name, i);
        ReadOn(name, i, words, current);
        current := current + [c];
      }
    }
    ReadEnd(name, words, current);
    if current != "" {
      words := words + [current];
    }
    r := JoinWords(words);
  }

  lemma WordsDecide(name: string)
    ensures forall ws :: IsWords(ws) && Concat(ws) == name ==> Snake(name, |name|) == JoinWords(ws)
    ensures Snake("", 0) == ""
  {
    forall ws | IsWords(ws) && Concat(ws) == name
      ensures Snake(name, |name|) == JoinWords(ws)
    {
      SnakeOfWords(ws);
    }
  }

  lemma NotABreak(name: string, i: nat)
    requires i < |name|
    ensures !IsUpper(name[i]) || i == 0 || name[i - 1] == '_' ==> !Break(name, i)
  {
  }

  // ----- the words and the one being read, after `i` characters

  ghost predicate ReadTo(name: string, i: nat, words: seq<string>, current: string) {
    && i <= |name| && (forall k :: 0 <= k < |words| ==> words[k] != "")
    && Partial(words, current) == Snake(name, i)
    && (current == "" <==> i == 0 || name[i - 1] == '_')
  }

  lemma ReadStart(name: string)
    ensures ReadTo(name, 0, [], "")
  {
  }

  lemma ReadUnderscore(name: string, i: nat, words: seq<string>, current: string)
    requires i < |name| && name[i] == '_' && ReadTo(name, i, words, current)
    ensures ReadTo(name, i + 1, if current == "" then words else words + [current], "")
  {
    hide Snake, Partial, Break;
    SnakeUnfold(name, i + 1);
    if current != "" {
      PartialClose(words, current);
    }
  }

  lemma ReadBreak(name: string, i: nat, words: seq<string>, current: string)
    requires i < |name| && name[i] != '_' && current != "" && Break(name, i) && ReadTo(name, i, words, current)
    ensures ReadTo(name, i + 1, words + [current], [name[i]])
  {
    hide Snake, Partial, Break;
    SnakeUnfold(name, i + 1);
    PartialClose(words, current);
    PartialStart(words + [current], name[i]);
  }

  lemma ReadOn(name: string, i: nat, words: seq<string>, current: string)
    requires i < |name| && name[i] != '_' && (current == "" || !Break(name, i)) && ReadTo(name, i, words, current)
    ensures ReadTo(name, i + 1, words, current + [name[i]])
  {
    NotABreak(name, i);
    hide Snake, Partial, Break;
    SnakeNone(name);
    SnakeUnfold(name, i + 1);
    if current == "" {
      PartialStart(words, name[i]);
      assert current + [name[i]] == [name[i]];
    } else {
      PartialGrow(words, current, name[i]);
      assert Partial(words, current) + "" == Partial(words, current);
    }
  }

  lemma ReadEnd(name: string, words: seq<string>, current: string)
    requires ReadTo(name, |name|, words, current)
    ensures JoinWords(if current == "" then words else words + [current]) == Snake(name, |name|)
  {
    hide Snake, JoinWords;
  }

  // ----- what the conversion keeps

  function WithoutUnderscores(s: string): string {
    if s == [] then ""
    else
      var front, c := WithoutUnderscores(s[..|s| - 1]), s[|s| - 1];
      if c == '_' then front else front + [c]
  }

  lemma WithoutAppend(s: string, c: char)
    ensures WithoutUnderscores(s + [c]) == if c == '_' then WithoutUnderscores(s) else WithoutUnderscores(s) + [c]
  {
    assert (s + [c])[..|s|] == s;
  }

  lemma WithoutSeparator(s: string, separate: bool, c: char)
    requires c != '_'
    ensures WithoutUnderscores(s + (if separate then "_" else "") + [c]) == WithoutUnderscores(s) + [c]
  {
    hide WithoutUnderscores;
    if separate {
      WithoutAppend(s, '_');
      WithoutAppend(s + "_", c);
    } else {
      assert s + "" == s;
      WithoutAppend(s, c);
    }
  }

  /** Apart from underscores the characters stay, in order, in upper case. */
  lemma {:induction false} SnakeKeepsLetters(s: string, n: nat)
    requires n <= |s|
    ensures WithoutUnderscores(Snake(s, n)) == Upper(WithoutUnderscores(s[..n]))
  {
    hide Snake, Break, WithoutUnderscores, Upper;
    if n == 0 {
      SnakeNone(s);
      NothingWithout();
      assert s[..0] == "";
    } else {
      SnakeUnfold(s, n);
      SnakeKeepsLetters(s, n - 1);
      var done, c := Snake(s, n - 1), s[n - 1];
      assert s[..n] == s[..n - 1] + [c];
      WithoutAppend(s[..n - 1], c);
      if c != '_' {
        UpperAppend(WithoutUnderscores(s[..n - 1]), c);
        WithoutSeparator(done, done != "" && n > 1 && (s[n - 2] == '_' || Break(s, n - 1)), Up(c));
      }
    }
  }

  lemma NothingWithout()
    ensures WithoutUnderscores("") == "" && Upper("") == ""
  {
  }

  /** Words in upper case, separated by single underscores. */
  ghost predicate Clean(r: string) {
    && (forall i :: 0 <= i < |r| ==> !IsLower(r[i]))
    && (r != "" ==> r[0] != '_' && r[|r| - 1] != '_')
    && (forall i :: 0 < i < |r| ==> r[i] != '_' || r[i - 1] != '_')
  }

  lemma {:induction false} SnakeIsClean(s: string, n: nat)
    requires n <= |s|
    ensures Clean(Snake(s, n))
  {
    hide Snake, Break;
    if n == 0 {
      SnakeNone(s);
    } else {
      SnakeUnfold(s, n);
      SnakeIsClean(s, n - 1);
    }
  }

  /** Converting a clean name only inserts underscores, and inserts some exactly when it has a word break. */
  lemma {:induction false} SnakeOfClean(r: string, n: nat)
    requires Clean(r) && n <= |r|
    ensures var kept := if n > 0 && r[n - 1] == '_' then n - 1 else n;
            && |Snake(r, n)| >= kept
            && ((forall i :: 0 <= i < n ==> !Break(r, i)) ==> Snake(r, n) == r[..kept])
            && ((exists i :: 0 <= i < n && Break(r, i)) ==> |Snake(r, n)| > kept)
  {
    if n > 0 {
      SnakeOfClean(r, n - 1);
      assert r[..n] == r[..n - 1] + [r[n - 1]];
      if n > 1 {
        assert r[..n - 1] == r[..n - 2] + [r[n - 2]];
      }
    }
  }

  /** Converting twice is converting once exactly when the converted name has no word break left in it. */
  lemma SnakeTwice(s: string)
    ensures var r := Snake(s, |s|);
            Snake(r, |r|) == r <==> forall i :: 0 <= i < |r| ==> !Break(r, i)
  {
    var r := Snake(s, |s|);
    SnakeIsClean(s, |s|);
    SnakeOfClean(r, |r|);
    assert r[..|r|] == r;
  }

  // ----- where words split

  /** Small letters and digits. */
  predicate IsSmall(c: char) { IsLower(c) || IsDigit(c) }

  predicate Capitals(w: string) { w != "" && forall i :: 0 <= i < |w| ==> IsUpper(w[i]) }

  predicate Capitalised(w: string) { w != "" && IsUpper(w[0]) && forall i :: 0 < i < |w| ==> IsSmall(w[i]) }

  predicate Small(w: string) { w != "" && forall i :: 0 <= i < |w| ==> IsSmall(w[i]) }

  /**
   The words of a name: capitalised ones and runs of capitals, where a run is not followed by another; the first word may
   also be small.
   */
  ghost predicate IsWords(words: seq<string>) {
    && (forall k :: 0 <= k < |words| ==> Capitals(words[k]) || Capitalised(words[k]) || (k == 0 && Small(words[k])))
    && (forall k :: 0 < k < |words| ==> !(Capitals(words[k - 1]) && Capitals(words[k])))
  }

  function Concat(words: seq<string>): string {
    if words == [] then "" else Concat(words[..|words| - 1]) + words[|words| - 1]
  }

  /** A capital further on does not matter to what comes before it. */
  lemma {:induction false} SnakeBefore(p: string, w: string, n: nat)
    requires n <= |p| && w != "" && !IsSmall(w[0])
    ensures Snake(p + w, n) == Snake(p, n)
  {
    if n > 0 {
      SnakeBefore(p, w, n - 1);
      assert (p + w)[n - 1] == p[n - 1] && (n > 1 ==> (p + w)[n - 2] == p[n - 2]);
      assert Break(p + w, n - 1) <==> Break(p, n - 1) by {
        assert n < |p + w| ==> (p + w)[n] == if n < |p| then p[n] else w[n - |p|];
      }
    }
  }

  lemma {:induction false} SnakeSome(p: string, n: nat)
    requires 0 < n <= |p| && p[n - 1] != '_'
    ensures Snake(p, n) != ""
  {
  }

  ghost predicate IsWord(w: string, first: bool) {
    Capitals(w) || Capitalised(w) || (first && Small(w))
  }

  lemma NoBreakInside(p: string, w: string, first: bool, i: nat)
    requires 0 < i < |w| && IsWord(w, first)
    ensures !Break(p + w, |p| + i)
    ensures w[i] != '_' && w[i - 1] != '_'
  {
    var s, n := p + w, |p| + i;
    assert s[n] == w[i] && s[n - 1] == w[i - 1];
    assert n + 1 < |s| ==> s[n + 1] == w[i + 1];
  }

  lemma SnakeGrows(s: string, n: nat)
    requires 0 < n < |s| && s[n] != '_' && s[n - 1] != '_' && !Break(s, n)
    ensures Snake(s, n + 1) == Snake(s, n) + [Up(s[n])]
  {
    assert Snake(s, n) + "" == Snake(s, n);
  }

  lemma SnakeStarts(p: string, w: string)
    requires w != "" && w[0] != '_' && (p != "" ==> p[|p| - 1] != '_' && Break(p + w, |p|))
    ensures Snake(p + w, |p| + 1) == Snake(p + w, |p|) + (if p == "" then "" else "_") + [Up(w[0])]
  {
    var s := p + w;
    assert s[|p|] == w[0];
    if p != "" {
      assert s[|p| - 1] == p[|p| - 1];
      SnakeSome(s, |p|);
    }
  }

  /** A word is taken in one piece after what comes before it. */
  lemma {:induction false} WordWhole(p: string, w: string, j: nat)
    requires 0 < j <= |w| && IsWord(w, p == "")
    requires p != "" ==> p[|p| - 1] != '_' && Break(p + w, |p|)
    ensures Snake(p + w, |p| + j) == Snake(p + w, |p|) + (if p == "" then "" else "_") + Upper(w[..j])
  {
    UpperAppend(w[..j - 1], w[j - 1]);
    assert w[..j] == w[..j - 1] + [w[j - 1]];
    if j == 1 {
      assert w[..0] == "" && Upper("") == "" && "" + [Up(w[0])] == [Up(w[0])];
      assert w[0] != '_';
      hide Snake, Break;
      SnakeStarts(p, w);
    } else {
      hide Snake, Break, IsWord, Upper;
      WordWhole(p, w, j - 1);
      NoBreakInside(p, w, p == "", j - 1);
      assert (p + w)[|p| + j - 1] == w[j - 1] && (p + w)[|p| + j - 2] == w[j - 2];
      SnakeGrows(p + w, |p| + j - 1);
    }
  }

  lemma {:induction false} WordsConcat(words: seq<string>)
    requires IsWords(words) && words != []
    ensures Concat(words) != "" && Concat(words)[|Concat(words)| - 1] == words[|words| - 1][|words[|words| - 1]| - 1]
  {
    var n := |words| - 1;
    if n > 0 {
      WordsConcat(words[..n]);
    }
  }

  /** Between two words there is a break. */
  lemma BreakBetween(p: string, before: string, w: string, first: bool)
    requires IsWord(before, first) && IsWord(w, false) && !(Capitals(before) && Capitals(w))
    requires p != "" && p[|p| - 1] == before[|before| - 1]
    ensures Break(p + w, |p|) && p[|p| - 1] != '_' && !IsSmall(w[0])
  {
    var s := p + w;
    assert s[|p|] == w[0] && s[|p| - 1] == before[|before| - 1] && (|w| > 1 ==> s[|p| + 1] == w[1]);
  }

  lemma WordsFront(words: seq<string>)
    requires IsWords(words) && words != []
    ensures var n := |words| - 1;
            && IsWords(words[..n]) && IsWord(words[n], n == 0)
            && (n > 0 ==> IsWord(words[n - 1], n == 1) && !(Capitals(words[n - 1]) && Capitals(words[n])))
  {
  }

  lemma JoinLast(words: seq<string>)
    requires words != []
    ensures var n := |words| - 1;
            && Concat(words) == Concat(words[..n]) + words[n]
            && JoinWords(words) == if n == 0 then Upper(words[0]) else JoinWords(words[..n]) + "_" + Upper(words[n])
    ensures Concat([]) == ""
  {
  }

  lemma SnakeNone(s: string)
    ensures Snake(s, 0) == ""
  {
  }

  /** Converting a name made of words gives the words in capitals, joined by underscores. */
  lemma {:induction false} SnakeOfWords(words: seq<string>)
    requires IsWords(words)
    ensures Snake(Concat(words), |Concat(words)|) == JoinWords(words)
  {
    hide Snake, Break, IsWords, IsWord, Concat, JoinWords, Upper, Capitals;
    if words == [] {
      NoWordsAtAll();
    } else {
      var n := |words| - 1;
      var front, w := words[..n], words[n];
      var p := Concat(front);
      WordsFront(words);
      JoinLast(words);
      SnakeOfWords(front);
      WordNotEmpty(w, n == 0);
      assert w[..|w|] == w;
      if n == 0 {
        assert front == [] && "" + w == w;
        SnakeNone(w);
        WordWhole("", w, |w|);
      } else {
        WordsConcat(front);
        BreakBetween(p, front[n - 1], w, n == 1);
        SnakeBefore(p, w, |p|);
        WordWhole(p, w, |w|);
      }
    }
  }

  lemma NoWordsAtAll()
    ensures Concat([]) == "" && JoinWords([]) == "" && Snake("", 0) == ""
  {
  }

  lemma WordNotEmpty(w: string, first: bool)
    requires IsWord(w, first)
    ensures w != ""
  {
  }

  lemma ConcatPush(words: seq<string>, w: string)
    ensures Concat(words + [w]) == Concat(words) + w
  {
    assert (words + [w])[..|words|] == words;
  }

  lemma WordsPush(words: seq<string>, w: string)
    requires IsWords(words) && IsWord(w, words == [])
    requires words != [] ==> !(Capitals(words[|words| - 1]) && Capitals(w))
    ensures IsWords(words + [w])
  {
  }

  lemma Regroup(a: string, b: string, c: string)
    ensures a + (b + c) == a + b + c
  {
  }

  /** The last character starts a word, ... */
  lemma StartWord(words: seq<string>, c: char) returns (more: seq<string>)
    requires IsWords(words) && IsWord([c], words == []) && (words != [] ==> !Capitals(words[|words| - 1]))
    ensures IsWords(more) && Concat(more) == Concat(words) + [c]
  {
    hide IsWords, Concat, IsWord, Capitals;
    WordsPush(words, [c]);
    ConcatPush(words, [c]);
    more := words + [[c]];
  }

  /** ... ends the word before it, ... */
  lemma EndWord(rest: seq<string>, w: string, c: char) returns (more: seq<string>)
    requires IsWords(rest) && IsWord(w + [c], rest == [])
    requires rest != [] ==> !(Capitals(rest[|rest| - 1]) && Capitals(w + [c]))
    ensures IsWords(more) && Concat(more) == Concat(rest) + w + [c]
  {
    hide IsWords, Concat, IsWord, Capitals;
    WordsPush(rest, w + [c]);
    ConcatPush(rest, w + [c]);
    Regroup(Concat(rest), w, [c]);
    more := rest + [w + [c]];
  }

  /** ... or takes the last of the capitals before it along. */
  lemma TakeCapital(rest: seq<string>, w: string, c: char) returns (more: seq<string>)
    requires IsWords(rest) && Capitals(w) && |w| > 1 && IsSmall(c)
    requires rest != [] ==> !Capitals(rest[|rest| - 1])
    ensures IsWords(more) && Concat(more) == Concat(rest) + w + [c]
  {
    var head, last := CapitalTaken(w, c, rest == []);
    hide IsWords, Concat, IsWord, Capitals;
    WordsPush(rest, head);
    ConcatPush(rest, head);
    var most := rest + [head];
    assert most[|most| - 1] == head;
    WordsPush(most, last);
    ConcatPush(most, last);
    Regroup(Concat(rest), head, last);
    Regroup(Concat(rest), w, [c]);
    more := most + [last];
  }

  lemma CapitalTaken(w: string, c: char, first: bool) returns (head: string, last: string)
    requires Capitals(w) && |w| > 1 && IsSmall(c)
    ensures IsWord(head, first) && IsWord(last, false) && !Capitals(last) && head + last == w + [c]
  {
    head, last := w[..|w| - 1], [w[|w| - 1], c];
    assert last[1] == c;
  }

  lemma LongerWord(w: string, c: char, first: bool)
    requires IsWord(w, first) && (if IsUpper(c) then Capitals(w) else IsSmall(c) && (Capitals(w) ==> |w| == 1))
    ensures IsWord(w + [c], first) && (Capitals(w + [c]) ==> Capitals(w))
  {
    assert (w + [c])[|w|] == c && forall i :: 0 <= i < |w| ==> (w + [c])[i] == w[i];
  }

  lemma OneCharacter(c: char, first: bool)
    requires IsUpper(c) || (first && IsSmall(c))
    ensures IsWord([c], first)
  {
  }

  /** A name with one more character is made of words again. */
  lemma MoreWords(words: seq<string>, c: char) returns (more: seq<string>)
    requires IsWords(words) && (IsUpper(c) || IsSmall(c))
    ensures IsWords(more) && Concat(more) == Concat(words) + [c]
  {
    hide IsWords, Concat, IsWord, Capitals;
    if words == [] || (IsUpper(c) && !Capitals(words[|words| - 1])) {
      OneCharacter(c, words == []);
      more := StartWord(words, c);
    } else {
      var rest, w := words[..|words| - 1], words[|words| - 1];
      WordsFront(words);
      JoinLast(words);
      WordNotEmpty(w, rest == []);
      if IsSmall(c) && Capitals(w) && |w| > 1 {
        more := TakeCapital(rest, w, c);
      } else {
        LongerWord(w, c, rest == []);
        more := EndWord(rest, w, c);
      }
    }
  }

  /** Every name of letters and digits is made of words. */
  lemma {:induction false} WordsOf(s: string) returns (words: seq<string>)
    requires forall i :: 0 <= i < |s| ==> IsUpper(s[i]) || IsSmall(s[i])
    ensures IsWords(words) && Concat(words) == s
  {
    if s == "" {
      return [];
    }
    var front := WordsOf(s[..|s| - 1]);
    words := MoreWords(front, s[|s| - 1]);
    assert s == s[..|s| - 1] + [s[|s| - 1]];
  }

  /** A converted name with one more character. */
  function Extended(done: string, c: char, start: bool): string {
    if c == '_' then done else done + (if done != "" && start then "_" else "") + [Up(c)]
  }

  lemma SnakeUnfold(s: string, n: nat)
    requires 0 < n <= |s|
    ensures Snake(s, n) == Extended(Snake(s, n - 1), s[n - 1], n > 1 && (s[n - 2] == '_' || Break(s, n - 1)))
  {
    if n == 1 {
      SnakeNone(s);
    }
  }

  function Joined(left: string, right: string): string {
    if left == "" then right else if right == "" then left else left + "_" + right
  }

  lemma ExtendJoined(left: string, right: string, c: char, start: bool, start': bool)
    requires if right == "" then start else start == start'
    ensures Extended(Joined(left, right), c, start) == Joined(left, Extended(right, c, start'))
  {
    var tail := (if right != "" && start then "_" else "") + [Up(c)];
    assert left + "_" + right + tail == left + "_" + (right + tail);
    assert "" + "" + [Up(c)] == [Up(c)];
  }

  /** An underscore ends a word: what is on its two sides is converted by itself. */
  lemma {:induction false} SnakeAfterUnderscore(a: string, b: string, n: nat)
    requires n <= |b|
    ensures Snake(a + "_" + b, |a| + 1 + n) == Joined(Snake(a, |a|), Snake(b, n))
  {
    hide Snake, Break, Extended, Joined;
    var s := a + "_" + b;
    SnakeUnfold(s, |a| + 1 + n);
    if n == 0 {
      assert s == a + ("_" + b) && s[|a|] == '_';
      SnakeBefore(a, "_" + b, |a|);
      SnakeNone(b);
      NothingJoined(Snake(a, |a|), |a| > 0 && (s[|a| - 1] == '_' || Break(s, |a|)));
    } else {
      SnakeUnfold(b, n);
      SnakeAfterUnderscore(a, b, n - 1);
      RightEmpty(b, n - 1);
      assert s[|a| + n] == b[n - 1] && s[|a| + n - 1] == if n == 1 then '_' else b[n - 2];
      SameBreak(a, b, n - 1);
      ExtendJoined(Snake(a, |a|), Snake(b, n - 1), b[n - 1], s[|a| + n - 1] == '_' || Break(s, |a| + n),
                   n > 1 && (b[n - 2] == '_' || Break(b, n - 1)));
    }
  }

  lemma NothingJoined(left: string, start: bool)
    ensures Extended(left, '_', start) == Joined(left, "")
  {
  }

  lemma SameBreak(a: string, b: string, i: nat)
    requires i < |b|
    ensures Break(a + "_" + b, |a| + 1 + i) <==> Break(b, i)
  {
    var s := a + "_" + b;
    assert s[|a| + 1 + i] == b[i] && s[|a| + i] == if i == 0 then '_' else b[i - 1];
    assert i + 1 < |b| ==> s[|a| + i + 2] == b[i + 1];
  }

  /** Nothing has come of the characters so far when they are all underscores. */
  lemma {:induction false} RightEmpty(b: string, n: nat)
    requires n <= |b|
    ensures Snake(b, n) == "" <==> forall i :: 0 <= i < n ==> b[i] == '_'
  {
    hide Snake, Break;
    if n == 0 {
      SnakeNone(b);
    } else {
      SnakeUnfold(b, n);
      RightEmpty(b, n - 1);
    }
  }

  // ----- when converting twice is converting once

  predicate IsLetter(c: char) { IsUpper(c) || IsLower(c) }

  /** A digit runs into a small letter, or a letter and a small letter run into a digit, at character `i`. */
  predicate SplitAt(s: string, i: nat)
    requires i < |s|
  {
    || (i >= 1 && IsDigit(s[i - 1]) && IsLower(s[i]))
    || (i >= 2 && IsLetter(s[i - 2]) && IsLower(s[i - 1]) && IsDigit(s[i]))
  }

  ghost predicate Splits(s: string) {
    exists i :: 0 <= i < |s| && SplitAt(s, i)
  }

  /** The same in capitals, which is where a conversion finds a word break. */
  predicate JamAt(r: string, j: nat)
    requires j < |r|
  {
    || (j >= 1 && IsDigit(r[j - 1]) && IsUpper(r[j]))
    || (j >= 2 && IsUpper(r[j - 2]) && IsUpper(r[j - 1]) && IsDigit(r[j]))
  }

  ghost predicate Jams(r: string) {
    exists j :: 0 <= j < |r| && JamAt(r, j)
  }

  lemma BreakIsJam(r: string)
    requires Clean(r)
    ensures Jams(r) <==> exists i :: 0 <= i < |r| && Break(r, i)
  {
    if i :| 0 <= i < |r| && Break(r, i) {
      assert JamAt(r, if IsDigit(r[i - 1]) then i else i + 1);
    }
    if j :| 0 <= j < |r| && JamAt(r, j) {
      assert Break(r, if IsUpper(r[j]) then j else j - 1);
    }
  }

  /** How a converted name ends. */
  lemma SnakeEnd(s: string, n: nat)
    requires 0 < n <= |s| && s[n - 1] != '_'
    ensures var r := Snake(s, n);
            && r != "" && r[|r| - 1] == Up(s[n - 1])
            && (n == 1 ==> |r| == 1)
            && (|r| > 1 ==> n > 1 && r[|r| - 2] == if s[n - 2] == '_' || Break(s, n - 1) then '_' else Up(s[n - 2]))
            && (n > 1 && s[n - 2] != '_' ==> |r| > 1)
            && (n > 1 && s[n - 2] != '_' && !Break(s, n - 1) ==> r == Snake(s, n - 1) + [Up(s[n - 1])])
  {
    if n > 1 && s[n - 2] != '_' {
      SnakeLast(s, n - 1);
    }
    if n > 1 && s[n - 2] == '_' {
      assert !Break(s, n - 1);
    }
  }

  lemma SnakeLast(s: string, n: nat)
    requires 0 < n <= |s| && s[n - 1] != '_'
    ensures var r := Snake(s, n); r != "" && r[|r| - 1] == Up(s[n - 1])
  {
    hide Break;
  }

  /** The last character completes a jam exactly when it completes a split. */
  lemma JamAtEnd(s: string, n: nat)
    requires 0 < n <= |s| && s[n - 1] != '_'
    ensures var r := Snake(s, n); r != "" && (JamAt(r, |r| - 1) <==> SplitAt(s, n - 1))
  {
    hide Snake;
    SnakeEnd(s, n);
    if n > 1 && s[n - 2] != '_' {
      SnakeEnd(s, n - 1);
    }
  }

  lemma {:induction false} JamsIffSplits(s: string, n: nat)
    requires n <= |s|
    ensures Jams(Snake(s, n)) <==> exists i :: 0 <= i < n && SplitAt(s, i)
  {
    if n > 0 {
      JamsIffSplits(s, n - 1);
      if s[n - 1] != '_' {
        JamAtEnd(s, n);
        JamsGrow(s, n);
      } else {
        assert !SplitAt(s, n - 1);
      }
    }
  }

  lemma JamsGrow(s: string, n: nat)
    requires 0 < n <= |s| && s[n - 1] != '_' && Snake(s, n) != ""
    ensures var r := Snake(s, n); Jams(r) <==> Jams(Snake(s, n - 1)) || JamAt(r, |r| - 1)
  {
    hide Break;
    var done, r := Snake(s, n - 1), Snake(s, n);
    assert forall j :: 0 <= j < |done| ==> r[j] == done[j];
    assert forall j :: 0 <= j < |done| ==> (JamAt(r, j) <==> JamAt(done, j));
    assert forall j :: |done| <= j < |r| - 1 ==> r[j] == '_' && !JamAt(r, j);
  }

  /**
   Converting twice is converting once exactly when no digit of the name runs into a small letter, and no letter
   followed by a small letter runs into a digit.
   */
  lemma SnakeTwiceIff(s: string)
    ensures var r := Snake(s, |s|);
            Snake(r, |r|) == r <==> !Splits(s)
  {
    SnakeTwice(s);
    SnakeIsClean(s, |s|);
    BreakIsJam(Snake(s, |s|));
    JamsIffSplits(s, |s|);
  }

  /** So it is idempotent on names without digits ... */
  lemma SnakeIdempotent(s: string)
    requires forall i :: 0 <= i < |s| ==> !IsDigit(s[i])
    ensures var r := Snake(s, |s|); Snake(r, |r|) == r
  {
    SnakeTwiceIff(s);
  }

  /** ... but not on `Ab1`, whose converted form splits before the letter that precedes the digit. */
  lemma DigitSplits()
    ensures Snake("Ab1", 3) == "AB1" && Snake("AB1", 3) == "A_B1"
  {
    assert Snake("Ab1", 1) == "A" && Snake("Ab1", 2) == "AB";
    assert Snake("AB1", 1) == "A" && Snake("AB1", 2) == "A_B";
  }
}
