/**
 Rewriting doc comments in place: `parse_pyo3_items` finds the wrapper functions of a file with the comment lines above
 them, and the reverse loop of `process_crate` splices new comments into the list of lines.
 */
module DocSplice {
  import opened Common

  // ----- lines

  predicate IsSpace(c: char) { c == ' ' || c == '\t' || c == '\r' || c == '\n' }

  function LeftStrip(s: string): (r: string)
    ensures |r| <= |s|
  {
    if s != [] && IsSpace(s[0]) then LeftStrip(s[1..]) else s
  }

  function RightStrip(s: string): string {
    if s != [] && IsSpace(s[|s| - 1]) then RightStrip(s[..|s| - 1]) else s
  }

  /** A stripped line starts with three slashes. */
  predicate IsDoc(line: string) { "///" <= LeftStrip(line) }

  predicate IsAttr(line: string) { "#[" <= LeftStrip(line) }

  predicate Closes(line: string) {
    var s := RightStrip(line);
    s != [] && s[|s| - 1] == ']'
  }

  /** Without its leading white space a line starts with three slashes, or with a hash and a bracket. */
  lemma StartsMean(line: string, n: nat)
    requires Leading(line, n)
    ensures LeftStrip(line) == line[n..]
    ensures IsDoc(line) <==> n + 3 <= |line| && line[n] == '/' && line[n + 1] == '/' && line[n + 2] == '/'
    ensures IsAttr(line) <==> n + 2 <= |line| && line[n] == '#' && line[n + 1] == '['
  {
    StripLeading(line, n);
    hide LeftStrip, IsSpace;
    StartsThree(line[n..]);
    StartsTwo(line[n..]);
  }

  lemma StartsThree(t: string)
    ensures "///" <= t <==> |t| >= 3 && t[0] == '/' && t[1] == '/' && t[2] == '/'
  {
    assert |t| >= 3 ==> t[..3] == [t[0], t[1], t[2]];
  }

  lemma StartsTwo(t: string)
    ensures "#[" <= t <==> |t| >= 2 && t[0] == '#' && t[1] == '['
  {
    assert |t| >= 2 ==> t[..2] == [t[0], t[1]];
  }

  lemma {:induction false} StripLeading(line: string, n: nat)
    requires Leading(line, n)
    ensures LeftStrip(line) == line[n..]
  {
    if n > 0 {
      assert forall i :: 0 <= i < |line| - 1 ==> line[1..][i] == line[i + 1];
      StripLeading(line[1..], n - 1);
      assert line[1..][n - 1..] == line[n..];
    } else {
      assert line[0..] == line;
    }
  }

  /** The last character that is not white space is a closing bracket. */
  lemma {:induction false} ClosesMeans(line: string)
    ensures Closes(line) <==> exists i :: 0 <= i < |line| && line[i] == ']' && forall j :: i < j < |line| ==> IsSpace(line[j])
  {
    if line != [] && IsSpace(line[|line| - 1]) {
      ClosesMeans(line[..|line| - 1]);
    }
  }

  /** Is line `i` inside an attribute that an earlier line opened? */
  predicate InAttr(lines: seq<string>, i: nat)
    requires i <= |lines|
  {
    if i == 0 then false
    else if InAttr(lines, i - 1) then !Closes(lines[i - 1])
    else !IsDoc(lines[i - 1]) && IsAttr(lines[i - 1]) && !Closes(lines[i - 1])
  }

  predicate DocAt(lines: seq<string>, i: nat)
    requires i < |lines|
  {
    !InAttr(lines, i) && IsDoc(lines[i])
  }

  predicate AttrAt(lines: seq<string>, i: nat)
    requires i < |lines|
  {
    !InAttr(lines, i) && !IsDoc(lines[i]) && IsAttr(lines[i])
  }

  /** Comments and attributes, which may stand above a function. */
  predicate HeaderAt(lines: seq<string>, i: nat)
    requires i < |lines|
  {
    InAttr(lines, i) || IsDoc(lines[i]) || IsAttr(lines[i])
  }

  /** First line of the run of header lines that ends before line `i`. */
  function Block(lines: seq<string>, i: nat): (b: nat)
    requires i <= |lines|
    ensures b <= i
    ensures forall j :: b <= j < i ==> HeaderAt(lines, j)
    ensures b > 0 ==> !HeaderAt(lines, b - 1)
  {
    if i == 0 || !HeaderAt(lines, i - 1) then i else Block(lines, i - 1)
  }

  // ----- items

  datatype Item = Item(fnName: string, fnLine: nat, doc: Option<(nat, nat)>, insertLine: nat)

  /** First and last comment line from `b` up to `i`. */
  ghost predicate DocRange(lines: seq<string>, b: nat, i: nat, doc: Option<(nat, nat)>)
    requires b <= i <= |lines|
  {
    match doc
    case None => forall j :: b <= j < i ==> !DocAt(lines, j)
    case Some((s, e)) =>
      && b <= s <= e < i && DocAt(lines, s) && DocAt(lines, e)
      && (forall j :: b <= j < s ==> !DocAt(lines, j))
      && (forall j :: e < j < i ==> !DocAt(lines, j))
  }

  ghost predicate FirstAttr(lines: seq<string>, b: nat, i: nat, attr: Option<nat>)
    requires b <= i <= |lines|
  {
    match attr
    case None => forall j :: b <= j < i ==> !AttrAt(lines, j)
    case Some(a) => b <= a < i && AttrAt(lines, a) && forall j :: b <= j < a ==> !AttrAt(lines, j)
  }

  /** Line `i` declares a wrapper function, and is not part of a header. */
  predicate FnAt(lines: seq<string>, fnOf: string -> Option<string>, i: nat)
    requires i < |lines|
  {
    !HeaderAt(lines, i) && fnOf(lines[i]).Some?
  }

  /** The item of a function line: the comments of the block above it, and where a comment would go. */
  ghost predicate ItemOf(lines: seq<string>, fnOf: string -> Option<string>, item: Item) {
    && item.fnLine < |lines| && FnAt(lines, fnOf, item.fnLine) && fnOf(lines[item.fnLine]) == Some(item.fnName)
    && DocRange(lines, Block(lines, item.fnLine), item.fnLine, item.doc)
    && exists attr: Option<nat> ::
         && FirstAttr(lines, Block(lines, item.fnLine), item.fnLine, attr)
         && item.insertLine == (if item.doc.Some? then item.doc.value.0 else if attr.Some? then attr.value else item.fnLine)
  }

  /** The items of the first `n` lines: one per function line, in order. */
  ghost predicate ItemsOf(lines: seq<string>, fnOf: string -> Option<string>, items: seq<Item>, n: nat)
    requires n <= |lines|
  {
    && (forall k :: 0 <= k < |items| ==> ItemOf(lines, fnOf, items[k]) && items[k].fnLine < n)
    && (forall j, k :: 0 <= j < k < |items| ==> items[j].fnLine < items[k].fnLine)
    && (forall i :: 0 <= i < n && FnAt(lines, fnOf, i) ==> exists k :: 0 <= k < |items| && items[k].fnLine == i)
  }

  /** Scans the lines once, carrying the comment range and first attribute of the block it is in. */
  method ParseItems(lines: seq<string>, fnOf: string -> Option<string>) returns (items: seq<Item>)
    ensures ItemsOf(lines, fnOf, items, |lines|)
  {
    hide IsDoc, IsAttr, Closes;
    items := [];
    var doc: Option<(nat, nat)>, attr: Option<nat>, inAttr := None, None, false;
    for i := 0 to |lines|
      invariant inAttr == InAttr(lines, i)
      invariant DocRange(lines, Block(lines, i), i, doc)
      invariant FirstAttr(lines, Block(lines, i), i, attr)
      invariant ItemsOf(lines, fnOf, items, i)
    {
      hide ItemsOf, DocRange, FirstAttr;
      var line := lines[i];
      if inAttr {
        HeaderStep(lines, i, doc, attr);
        NoItem(lines, fnOf, items, i);
        if Closes(line) {
          inAttr := false;
        }
      } else if IsDoc(line) {
        HeaderStep(lines, i, doc, attr);
        NoItem(lines, fnOf, items, i);
        doc := if doc == None then Some((i, i)) else Some((doc.value.0, i));
      } else if IsAttr(line) {
        HeaderStep(lines, i, doc, attr);
        NoItem(lines, fnOf, items, i);
        if attr == None {
          attr := Some(i);
        }
        if !Closes(line) {
          inAttr := true;
        }
      } else {
        BlockReset(lines, i);
        var name := fnOf(line);
        if name.Some? {
          var insert := if attr.Some? then attr.value else i;
          if doc.Some? {
            insert := doc.value.0;
          }
          var item := Item(name.value, i, doc, insert);
          OneItem(lines, fnOf, items, item, attr);
          items := items + [item];
        } else {
          NoItem(lines, fnOf, items, i);
        }
        doc, attr := None, None;
      }
    }
  }

  lemma HeaderStep(lines: seq<string>, i: nat, doc: Option<(nat, nat)>, attr: Option<nat>)
    requires i < |lines| && HeaderAt(lines, i)
    requires DocRange(lines, Block(lines, i), i, doc) && FirstAttr(lines, Block(lines, i), i, attr)
    ensures Block(lines, i + 1) == Block(lines, i)
    ensures DocRange(lines, Block(lines, i), i + 1,
                     if !DocAt(lines, i) then doc else if doc == None then Some((i, i)) else Some((doc.value.0, i)))
    ensures FirstAttr(lines, Block(lines, i), i + 1, if AttrAt(lines, i) && attr == None then Some(i) else attr)
  {
    hide InAttr, IsDoc, IsAttr;
  }

  lemma BlockReset(lines: seq<string>, i: nat)
    requires i < |lines| && !HeaderAt(lines, i)
    ensures Block(lines, i + 1) == i + 1 && !InAttr(lines, i + 1)
    ensures DocRange(lines, i + 1, i + 1, None) && FirstAttr(lines, i + 1, i + 1, None)
  {
  }

  lemma NoItem(lines: seq<string>, fnOf: string -> Option<string>, items: seq<Item>, i: nat)
    requires i < |lines| && !FnAt(lines, fnOf, i) && ItemsOf(lines, fnOf, items, i)
    ensures ItemsOf(lines, fnOf, items, i + 1)
  {
    hide FnAt, ItemOf;
  }

  lemma OneItem(lines: seq<string>, fnOf: string -> Option<string>, items: seq<Item>, item: Item, attr: Option<nat>)
    requires item.fnLine < |lines| && FnAt(lines, fnOf, item.fnLine) && ItemsOf(lines, fnOf, items, item.fnLine)
    requires fnOf(lines[item.fnLine]) == Some(item.fnName)
    requires DocRange(lines, Block(lines, item.fnLine), item.fnLine, item.doc)
    requires FirstAttr(lines, Block(lines, item.fnLine), item.fnLine, attr)
    requires item.insertLine == (if item.doc.Some? then item.doc.value.0 else if attr.Some? then attr.value else item.fnLine)
    ensures ItemsOf(lines, fnOf, items + [item], item.fnLine + 1)
  {
    hide DocRange, FirstAttr, FnAt, Block;
    var all, i := items + [item], item.fnLine;
    assert ItemOf(lines, fnOf, item);
    forall j | 0 <= j < i + 1 && FnAt(lines, fnOf, j)
      ensures exists k :: 0 <= k < |all| && all[k].fnLine == j
    {
      if j == i {
        assert all[|items|].fnLine == j;
      } else {
        var k :| 0 <= k < |items| && items[k].fnLine == j;
        assert all[k].fnLine == j;
      }
    }
  }

  // ----- splicing

  function Indent(line: string): string { line[..|line| - |LeftStrip(line)|] }

  /** Comment lines at an indentation; an empty line becomes bare slashes. */
  function Format(doc: seq<string>, indent: string): seq<string> {
    seq(|doc|, i requires 0 <= i < |doc| => indent + (if doc[i] != "" then "/// " + doc[i] else "///"))
  }

  /** The documentation found for an item, given its function line; nothing when there is none. */
  type DocSource = (Item, string) -> seq<string>

  /** The lines an edit replaces: the old comment, or none at the insertion point. */
  function EditStart(item: Item): nat { if item.doc.Some? then item.doc.value.0 else item.insertLine }

  function EditEnd(item: Item): nat { if item.doc.Some? then item.doc.value.1 + 1 else item.insertLine }

  /** Edits do not reach past their function line, and each starts after the function line before it. */
  ghost predicate Separated(items: seq<Item>, n: nat) {
    && (forall k :: 0 <= k < |items| ==> EditStart(items[k]) <= EditEnd(items[k]) <= items[k].fnLine < n)
    && (forall j, k :: 0 <= j < k < |items| ==> items[j].fnLine < EditStart(items[k]))
  }

  /** Parsed items are separated. */
  lemma ParsedSeparated(lines: seq<string>, fnOf: string -> Option<string>, items: seq<Item>)
    requires ItemsOf(lines, fnOf, items, |lines|)
    ensures Separated(items, |lines|)
  {
    forall k | 0 <= k < |items|
      ensures EditStart(items[k]) <= EditEnd(items[k]) <= items[k].fnLine && Block(lines, items[k].fnLine) <= EditStart(items[k])
    {
      assert ItemOf(lines, fnOf, items[k]);
    }
    forall j, k | 0 <= j < k < |items|
      ensures items[j].fnLine < EditStart(items[k])
    {
      BlockAfterFn(lines, fnOf, items[j].fnLine, items[k].fnLine);
    }
  }

  /** A function line ends every block above it. */
  lemma BlockAfterFn(lines: seq<string>, fnOf: string -> Option<string>, f: nat, g: nat)
    requires f < g < |lines| && FnAt(lines, fnOf, f)
    ensures f < Block(lines, g)
  {
  }

  /** What an item's lines become, judged by the original lines alone. */
  function Replacement(lines: seq<string>, item: Item, docFor: DocSource): seq<string>
    requires EditStart(item) <= EditEnd(item) <= item.fnLine < |lines|
  {
    var doc := docFor(item, lines[item.fnLine]);
    if doc == [] then lines[EditStart(item)..EditEnd(item)] else Format(doc, Indent(lines[item.fnLine]))
  }

  /** All edits applied at once to the original lines, from item `k` and line `pos` on. */
  function Rewritten(lines: seq<string>, items: seq<Item>, docFor: DocSource, k: nat, pos: nat): seq<string>
    requires Separated(items, |lines|) && k <= |items|
    requires pos <= if k < |items| then EditStart(items[k]) else |lines|
    decreases |items| - k
  {
    if k == |items| then lines[pos..]
    else
      var item := items[k];
      lines[pos..EditStart(item)] + Replacement(lines, item, docFor) + Rewritten(lines, items, docFor, k + 1, EditEnd(item))
  }

  lemma RewrittenUnfold(lines: seq<string>, items: seq<Item>, docFor: DocSource, k: nat, pos: nat)
    requires Separated(items, |lines|) && k < |items| && pos <= EditStart(items[k])
    ensures EditStart(items[k]) <= EditEnd(items[k]) <= items[k].fnLine < |lines|
    ensures items[k].fnLine + 1 <= if k + 1 < |items| then EditStart(items[k + 1]) else |lines|
    ensures Rewritten(lines, items, docFor, k, pos) ==
            lines[pos..EditStart(items[k])] + Replacement(lines, items[k], docFor) + Rewritten(lines, items, docFor, k + 1, EditEnd(items[k]))
  {
  }

  /** Lines before the next edit are still the original ones. */
  lemma RewrittenPrefix(lines: seq<string>, items: seq<Item>, docFor: DocSource, k: nat, pos: nat)
    requires Separated(items, |lines|) && k <= |items|
    requires pos <= if k < |items| then EditStart(items[k]) else |lines|
    ensures Rewritten(lines, items, docFor, k, 0) == lines[..pos] + Rewritten(lines, items, docFor, k, pos)
  {
    if k == |items| {
      assert lines == lines[..pos] + lines[pos..];
    } else {
      var s := EditStart(items[k]);
      var mid, tail := Replacement(lines, items[k], docFor), Rewritten(lines, items, docFor, k + 1, EditEnd(items[k]));
      assert Rewritten(lines, items, docFor, k, 0) == lines[0..s] + mid + tail;
      assert Rewritten(lines, items, docFor, k, pos) == lines[pos..s] + mid + tail;
      hide Rewritten, Replacement, Separated;
      assert lines[0..s] == lines[..pos] + lines[pos..s];
      SplitFront(lines[..pos], lines[pos..s], mid, tail);
    }
  }

  lemma SplitFront(a: seq<string>, b: seq<string>, c: seq<string>, d: seq<string>)
    ensures (a + b) + c + d == a + (b + c + d)
  {
  }

  /** One edit of the reverse loop is the next step of applying all at once. */
  lemma SpliceStep(lines: seq<string>, items: seq<Item>, docFor: DocSource, k: nat)
    requires Separated(items, |lines|) && k < |items|
    ensures var now := Rewritten(lines, items, docFor, k + 1, 0);
            var item := items[k];
            && item.fnLine < |now| && now[item.fnLine] == lines[item.fnLine]
            && now[EditStart(item)..EditEnd(item)] == lines[EditStart(item)..EditEnd(item)]
            && now[..EditStart(item)] + Replacement(lines, item, docFor) + now[EditEnd(item)..]
            == Rewritten(lines, items, docFor, k, 0)
  {
    hide Separated, Rewritten, Replacement;
    RewrittenUnfold(lines, items, docFor, k, 0);
    var item := items[k];
    var s, e, f := EditStart(item), EditEnd(item), item.fnLine;
    var now := Rewritten(lines, items, docFor, k + 1, 0);
    RewrittenPrefix(lines, items, docFor, k + 1, f + 1);
    RewrittenPrefix(lines, items, docFor, k + 1, e);
    var rest, tail := Rewritten(lines, items, docFor, k + 1, f + 1), Rewritten(lines, items, docFor, k + 1, e);
    assert now == lines[..f + 1] + rest && now == lines[..e] + tail;
    assert now[e..] == tail && now[..s] == lines[..s] && lines[0..s] == lines[..s];
    assert now[s..e] == lines[s..e] && now[f] == lines[f];
  }

  /** The edits from item `k` on. */
  function FromItem(lines: seq<string>, items: seq<Item>, docFor: DocSource, k: nat): seq<string>
    requires Separated(items, |lines|) && k <= |items|
  {
    Rewritten(lines, items, docFor, k, 0)
  }

  predicate Fits(item: Item, n: nat) { EditStart(item) <= EditEnd(item) <= item.fnLine < n }

  /** One edit, computed from the list it is applied to. */
  function Spliced(lines: seq<string>, item: Item, docFor: DocSource): seq<string>
    requires Fits(item, |lines|)
  {
    lines[..EditStart(item)] + Replacement(lines, item, docFor) + lines[EditEnd(item)..]
  }

  /** So the edit may be computed from the list as it stands. */
  lemma SpliceNow(lines: seq<string>, items: seq<Item>, docFor: DocSource, k: nat)
    requires Separated(items, |lines|) && k < |items|
    ensures var now := FromItem(lines, items, docFor, k + 1);
            && Fits(items[k], |now|) && Spliced(now, items[k], docFor) == FromItem(lines, items, docFor, k)
            && Fits(items[k], |lines|) && (Changes(now, items[k], docFor) <==> Changes(lines, items[k], docFor))
  {
    hide Comment, Separated, Rewritten, Replacement, EditStart, EditEnd;
    RewrittenUnfold(lines, items, docFor, k, 0);
    SpliceStep(lines, items, docFor, k);
    SameReplacement(lines, FromItem(lines, items, docFor, k + 1), items[k], docFor);
  }

  /** One edit on the list as it stands; it reports whether anything changed. */
  method SpliceOne(lines: seq<string>, item: Item, docFor: DocSource) returns (r: seq<string>, changed: bool)
    requires Fits(item, |lines|)
    ensures r == Spliced(lines, item, docFor)
    ensures !changed ==> r == lines
    ensures SplicedIn(lines, r, item, docFor) && (changed <==> Changes(lines, item, docFor))
  {
    hide Format, Indent, SplicedIn, Comment;
    SplicedPlaced(lines, item, docFor);
    CommentUnique(lines[EditStart(item)..EditEnd(item)], docFor(item, lines[item.fnLine]), lines[item.fnLine]);
    var doc := docFor(item, lines[item.fnLine]);
    if doc == [] {
      KeepSlice(lines, EditStart(item), EditEnd(item));
      return lines, false;
    }
    var new_ := Format(doc, Indent(lines[item.fnLine]));
    if item.doc.Some? {
      var (s, e) := item.doc.value;
      if lines[s..e + 1] == new_ {
        KeepSlice(lines, s, e + 1);
        return lines, false;
      }
      r := lines[..s] + new_ + lines[e + 1..];
    } else {
      r := lines[..item.insertLine] + new_ + lines[item.insertLine..];
    }
    changed := true;
  }

  /**
   The reverse loop: every edit is computed from and applied to the list as it stands, last item first.  The result is
   all edits applied at once to the original lines; without updates nothing has changed.
   */
  method SpliceAll(original: seq<string>, items: seq<Item>, docFor: DocSource) returns (lines: seq<string>, updates: nat)
    requires Separated(items, |original|)
    ensures lines == FromItem(original, items, docFor, 0)
    ensures updates == 0 ==> lines == original
    ensures updates == CountChanges(original, items, docFor, 0)
  {
    hide SplicedFrom, Fits, Spliced, SplicedIn, Changes, FromItem, CountChanges;
    lines, updates := original, 0;
    SpliceStart(original, items, docFor);
    var k := |items|;
    while k > 0
      invariant 0 <= k <= |items| && SplicedFrom(original, items, docFor, k, lines, updates)
    {
      k := k - 1;
      SpliceTurn(original, items, docFor, k, lines, updates);
      var r, changed := SpliceOne(lines, items[k], docFor);
      lines := r;
      if changed {
        updates := updates + 1;
      }
    }
    SpliceEnd(original, items, docFor, lines, updates);
  }

  /** The edits of items `k` and on have been made, and `updates` of them changed something. */
  ghost predicate SplicedFrom(original: seq<string>, items: seq<Item>, docFor: DocSource, k: nat, lines: seq<string>, updates: nat) {
    && Separated(items, |original|) && k <= |items|
    && lines == FromItem(original, items, docFor, k) && updates == CountChanges(original, items, docFor, k)
    && (updates == 0 ==> lines == original)
  }

  lemma SpliceStart(original: seq<string>, items: seq<Item>, docFor: DocSource)
    requires Separated(items, |original|)
    ensures SplicedFrom(original, items, docFor, |items|, original, 0)
  {
    hide Separated;
    NothingRewritten(original, items, docFor);
  }

  lemma SpliceTurn(original: seq<string>, items: seq<Item>, docFor: DocSource, k: nat, lines: seq<string>, updates: nat)
    requires k < |items| && SplicedFrom(original, items, docFor, k + 1, lines, updates)
    ensures Fits(items[k], |lines|)
    ensures var r := Spliced(lines, items[k], docFor);
            && (Changes(lines, items[k], docFor) ==> SplicedFrom(original, items, docFor, k, r, updates + 1))
            && (!Changes(lines, items[k], docFor) && r == lines ==> SplicedFrom(original, items, docFor, k, r, updates))
  {
    hide FromItem, Fits, Spliced, Separated, Changes;
    SpliceNow(original, items, docFor, k);
  }

  lemma SpliceEnd(original: seq<string>, items: seq<Item>, docFor: DocSource, lines: seq<string>, updates: nat)
    requires SplicedFrom(original, items, docFor, 0, lines, updates)
    ensures Separated(items, |original|) && lines == FromItem(original, items, docFor, 0)
    ensures updates == CountChanges(original, items, docFor, 0) && (updates == 0 ==> lines == original)
  {
    hide FromItem, Separated, CountChanges;
  }

  lemma SameReplacement(a: seq<string>, b: seq<string>, item: Item, docFor: DocSource)
    requires EditStart(item) <= EditEnd(item) <= item.fnLine < |a| && item.fnLine < |b| && a[item.fnLine] == b[item.fnLine]
    requires a[EditStart(item)..EditEnd(item)] == b[EditStart(item)..EditEnd(item)]
    ensures Replacement(a, item, docFor) == Replacement(b, item, docFor)
  {
  }

  lemma NothingRewritten(lines: seq<string>, items: seq<Item>, docFor: DocSource)
    requires Separated(items, |lines|)
    ensures Rewritten(lines, items, docFor, |items|, 0) == lines
  {
  }

  lemma KeepSlice(lines: seq<string>, s: nat, e: nat)
    requires s <= e <= |lines|
    ensures lines[..s] + lines[s..e] + lines[e..] == lines
  {
  }

  // ----- what survives

  /** The lines that are not comments. */
  function Code(lines: seq<string>): seq<string> {
    if lines == [] then []
    else if IsDoc(lines[0]) then Code(lines[1..])
    else [lines[0]] + Code(lines[1..])
  }

  lemma {:induction false} CodeAppend(a: seq<string>, b: seq<string>)
    ensures Code(a + b) == Code(a) + Code(b)
  {
    if a == [] {
      assert a + b == b;
    } else {
      assert (a + b)[1..] == a[1..] + b;
      CodeAppend(a[1..], b);
    }
  }

  lemma {:induction false} IndentSpaces(line: string)
    ensures forall i :: 0 <= i < |Indent(line)| ==> IsSpace(Indent(line)[i])
  {
    if line != [] && IsSpace(line[0]) {
      IndentSpaces(line[1..]);
      assert Indent(line) == [line[0]] + Indent(line[1..]);
    }
  }

  lemma {:induction false} StripIndent(indent: string, rest: string)
    requires forall i :: 0 <= i < |indent| ==> IsSpace(indent[i])
    requires rest != [] && !IsSpace(rest[0])
    ensures LeftStrip(indent + rest) == rest
  {
    if indent == [] {
      assert indent + rest == rest;
    } else {
      assert (indent + rest)[1..] == indent[1..] + rest;
      StripIndent(indent[1..], rest);
    }
  }

  lemma {:induction false} FormattedIsDoc(doc: seq<string>, line: string)
    ensures Code(Format(doc, Indent(line))) == []
  {
    if doc != [] {
      var all := Format(doc, Indent(line));
      assert all[1..] == Format(doc[1..], Indent(line));
      FormattedIsDoc(doc[1..], line);
      IndentSpaces(line);
      StripIndent(Indent(line), if doc[0] != "" then "/// " + doc[0] else "///");
    }
  }

  /** The edits that happen replace comment lines only. */
  ghost predicate OnlyDocsReplaced(lines: seq<string>, items: seq<Item>, docFor: DocSource, k: nat)
    requires Separated(items, |lines|) && k <= |items|
  {
    forall j :: k <= j < |items| && docFor(items[j], lines[items[j].fnLine]) != [] ==>
      Code(lines[EditStart(items[j])..EditEnd(items[j])]) == []
  }

  lemma ReplacementCode(lines: seq<string>, item: Item, docFor: DocSource)
    requires EditStart(item) <= EditEnd(item) <= item.fnLine < |lines|
    ensures var old_ := Code(lines[EditStart(item)..EditEnd(item)]);
            Code(Replacement(lines, item, docFor)) == if docFor(item, lines[item.fnLine]) == [] then old_ else []
  {
    hide Format, Indent;
    FormattedIsDoc(docFor(item, lines[item.fnLine]), lines[item.fnLine]);
  }

  /** Code lines never multiply; they all survive, in order, exactly when only comments are replaced. */
  lemma {:induction false} CodeSurvives(lines: seq<string>, items: seq<Item>, docFor: DocSource, k: nat, pos: nat)
    requires Separated(items, |lines|) && k <= |items|
    requires pos <= if k < |items| then EditStart(items[k]) else |lines|
    ensures |Code(Rewritten(lines, items, docFor, k, pos))| <= |Code(lines[pos..])|
    ensures Code(Rewritten(lines, items, docFor, k, pos)) == Code(lines[pos..]) <==> OnlyDocsReplaced(lines, items, docFor, k)
    decreases |items| - k
  {
    hide Code, Replacement, Rewritten, Separated, OnlyDocsReplaced;
    if k == |items| {
      NoMoreEdits(lines, items, docFor, pos);
    } else {
      RewrittenUnfold(lines, items, docFor, k, pos);
      var item := items[k];
      var s, e := EditStart(item), EditEnd(item);
      var new_, rest := Replacement(lines, item, docFor), Rewritten(lines, items, docFor, k + 1, e);
      CodeSurvives(lines, items, docFor, k + 1, e);
      ReplacementCode(lines, item, docFor);
      assert lines[pos..] == lines[pos..s] + lines[s..e] + lines[e..];
      CodeStep(lines[pos..s], lines[s..e], lines[e..], new_, rest);
      OnlyDocsStep(lines, items, docFor, k);
    }
  }

  lemma NoMoreEdits(lines: seq<string>, items: seq<Item>, docFor: DocSource, pos: nat)
    requires Separated(items, |lines|) && pos <= |lines|
    ensures Rewritten(lines, items, docFor, |items|, pos) == lines[pos..]
    ensures OnlyDocsReplaced(lines, items, docFor, |items|)
  {
  }

  /** Replacing a part by one with the same code or none, before a part with no more code. */
  lemma CodeStep(a: seq<string>, b: seq<string>, c: seq<string>, b': seq<string>, c': seq<string>)
    requires |Code(c')| <= |Code(c)| && (Code(b') == Code(b) || Code(b') == [])
    ensures |Code(a + b' + c')| <= |Code(a + b + c)|
    ensures Code(a + b' + c') == Code(a + b + c) <==> Code(b') == Code(b) && Code(c') == Code(c)
  {
    hide Code;
    ThreeParts(a, b', c');
    ThreeParts(a, b, c);
    SameParts(Code(a), Code(b'), Code(c'), Code(b), Code(c));
  }

  lemma ThreeParts(a: seq<string>, b: seq<string>, c: seq<string>)
    ensures Code(a + b + c) == Code(a) + Code(b) + Code(c)
  {
    CodeAppend(a + b, c);
    CodeAppend(a, b);
  }

  lemma SameParts(a: seq<string>, b: seq<string>, c: seq<string>, b': seq<string>, c': seq<string>)
    requires |c| <= |c'| && (b == b' || b == [])
    ensures a + b + c == a + b' + c' <==> b == b' && c == c'
  {
    if a + b + c == a + b' + c' {
      assert |b| + |c| == |b'| + |c'|;
      assert b == b' by {
        assert |b| == |b'|;
      }
      assert (a + b + c)[|a| + |b|..] == c && (a + b' + c')[|a| + |b'|..] == c';
    }
  }

  lemma OnlyDocsStep(lines: seq<string>, items: seq<Item>, docFor: DocSource, k: nat)
    requires Separated(items, |lines|) && k < |items|
    ensures OnlyDocsReplaced(lines, items, docFor, k) <==>
            && OnlyDocsReplaced(lines, items, docFor, k + 1)
            && (docFor(items[k], lines[items[k].fnLine]) != [] ==> Code(lines[EditStart(items[k])..EditEnd(items[k])]) == [])
  {
    hide Code;
  }

  // ----- the result, told from the original lines and the documentation

  /** The leading white space of a line is its first `n` characters. */
  predicate Leading(line: string, n: nat) {
    && n <= |line| && (forall i :: 0 <= i < n ==> IsSpace(line[i])) && (n < |line| ==> !IsSpace(line[n]))
  }

  /** Leading white space of the function line, three slashes, and after a space the text, if any. */
  ghost predicate CommentLine(line: string, fnLine: string, text: string) {
    exists n: nat :: Leading(fnLine, n) && line == fnLine[..n] + "///" + (if text == "" then "" else " " + text)
  }

  /** One comment line per documentation line. */
  ghost predicate Comment(block: seq<string>, fnLine: string, docs: seq<string>) {
    |block| == |docs| && forall i :: 0 <= i < |docs| ==> CommentLine(block[i], fnLine, docs[i])
  }

  lemma {:induction false} IndentLeading(line: string)
    ensures Leading(line, |Indent(line)|) && Indent(line) == line[..|Indent(line)|]
  {
    if line != [] && IsSpace(line[0]) {
      IndentLeading(line[1..]);
      assert Indent(line) == [line[0]] + Indent(line[1..]);
      assert forall i :: 0 < i < |line| ==> line[i] == line[1..][i - 1];
    }
  }

  lemma FormatLines(doc: seq<string>, fnLine: string)
    ensures Comment(Format(doc, Indent(fnLine)), fnLine, doc)
  {
    IndentLeading(fnLine);
    hide Indent;
    forall i | 0 <= i < |doc|
      ensures CommentLine(Format(doc, Indent(fnLine))[i], fnLine, doc[i])
    {
      var n := |Indent(fnLine)|;
      assert "/// " + doc[i] == "///" + (" " + doc[i]);
      assert fnLine[..n] + ("///" + (" " + doc[i])) == fnLine[..n] + "///" + (" " + doc[i]);
      assert fnLine[..n] + "///" == fnLine[..n] + "///" + "";
    }
  }

  /** The text of a comment line. */
  function Uncomment(line: string): string {
    var t := LeftStrip(line);
    if |t| > 4 && t[..4] == "/// " then t[4..] else if "///" <= t then t[3..] else t
  }

  /** Reading a comment line back gives its text. */
  lemma UncommentLine(line: string, fnLine: string, text: string)
    requires CommentLine(line, fnLine, text)
    ensures Uncomment(line) == text
  {
    var n: nat :| Leading(fnLine, n) && line == fnLine[..n] + "///" + (if text == "" then "" else " " + text);
    var rest := "///" + (if text == "" then "" else " " + text);
    assert line == fnLine[..n] + rest;
    assert rest[0] == '/' && !IsSpace(rest[0]);
    StripIndent(fnLine[..n], rest);
    if text != "" {
      assert rest == "/// " + text && rest[..4] == "/// " && rest[4..] == text;
    } else {
      assert rest == "///" && rest[3..] == "";
    }
  }

  function ReadBack(block: seq<string>): seq<string> {
    seq(|block|, i requires 0 <= i < |block| => Uncomment(block[i]))
  }

  /** Reading a comment back gives the documentation. */
  lemma CommentReadBack(block: seq<string>, fnLine: string, docs: seq<string>)
    requires Comment(block, fnLine, docs)
    ensures ReadBack(block) == docs
  {
    hide CommentLine, Uncomment;
    forall i | 0 <= i < |block|
      ensures Uncomment(block[i]) == docs[i]
    {
      UncommentLine(block[i], fnLine, docs[i]);
    }
  }

  lemma LeadingUnique(line: string, m: nat, n: nat)
    requires Leading(line, m) && Leading(line, n)
    ensures m == n
  {
  }

  /** The comment of given documentation is the formatted one. */
  lemma CommentUnique(block: seq<string>, docs: seq<string>, fnLine: string)
    ensures Comment(block, fnLine, docs) <==> block == Format(docs, Indent(fnLine))
  {
    FormatLines(docs, fnLine);
    hide Format, Indent;
    if Comment(block, fnLine, docs) {
      var formatted := Format(docs, Indent(fnLine));
      forall i | 0 <= i < |block|
        ensures block[i] == formatted[i]
      {
        SameComment(block[i], formatted[i], fnLine, docs[i]);
      }
    }
  }

  lemma SameComment(a: string, b: string, fnLine: string, text: string)
    requires CommentLine(a, fnLine, text) && CommentLine(b, fnLine, text)
    ensures a == b
  {
    var m: nat :| Leading(fnLine, m) && a == fnLine[..m] + "///" + (if text == "" then "" else " " + text);
    var n: nat :| Leading(fnLine, n) && b == fnLine[..n] + "///" + (if text == "" then "" else " " + text);
    LeadingUnique(fnLine, m, n);
  }

  /** Something changes when there is documentation and the comment that stands there, if any, is not already its. */
  ghost predicate Changes(lines: seq<string>, item: Item, docFor: DocSource)
    requires Fits(item, |lines|)
  {
    var docs := docFor(item, lines[item.fnLine]);
    docs != [] && (item.doc == None || !Comment(lines[EditStart(item)..EditEnd(item)], lines[item.fnLine], docs))
  }

  ghost function CountChanges(lines: seq<string>, items: seq<Item>, docFor: DocSource, k: nat): nat
    requires k <= |items|
    decreases |items| - k
  {
    if k == |items| then 0
    else (if Fits(items[k], |lines|) && Changes(lines, items[k], docFor) then 1 else 0) + CountChanges(lines, items, docFor, k + 1)
  }

  /** The new comment in its place, and all lines before and after it as they were. */
  ghost predicate SplicedIn(lines: seq<string>, r: seq<string>, item: Item, docFor: DocSource)
    requires Fits(item, |lines|)
  {
    var s, n := EditStart(item), NewSize(lines, item, docFor);
    && BlockAt(lines, r, item, docFor, s)
    && r[..s] == lines[..s] && r[s + n..] == lines[EditEnd(item)..]
  }

  lemma SplicedPlaced(lines: seq<string>, item: Item, docFor: DocSource)
    requires Fits(item, |lines|)
    ensures SplicedIn(lines, Spliced(lines, item, docFor), item, docFor)
  {
    var before, after := lines[..EditStart(item)], lines[EditEnd(item)..];
    ReplacementBlock(lines, item, docFor);
    BlockShift(lines, before, Replacement(lines, item, docFor), after, item, docFor, 0);
    hide Replacement, Comment;
    var r := Spliced(lines, item, docFor);
    assert r[..|before|] == before && r[|before| + NewSize(lines, item, docFor)..] == after;
  }

  /** How many lines the edit of an item leaves. */
  function NewSize(original: seq<string>, item: Item, docFor: DocSource): nat
    requires Fits(item, |original|)
  {
    var docs := docFor(item, original[item.fnLine]);
    if docs == [] then EditEnd(item) - EditStart(item) else |docs|
  }

  /** At position `a` stands the new comment, one line per documentation line, or else what stood there before. */
  ghost predicate BlockAt(original: seq<string>, r: seq<string>, item: Item, docFor: DocSource, a: nat)
    requires Fits(item, |original|)
  {
    var docs := docFor(item, original[item.fnLine]);
    && a + NewSize(original, item, docFor) <= |r|
    && if docs == [] then r[a..a + NewSize(original, item, docFor)] == original[EditStart(item)..EditEnd(item)]
       else Comment(r[a..a + |docs|], original[item.fnLine], docs)
  }

  /** Where the lines between edit `j - 1` and edit `j` come from and go to; the edits of items `k` and on stand at `at`. */
  ghost predicate GapAt(original: seq<string>, r: seq<string>, items: seq<Item>, docFor: DocSource, k: nat, pos: nat, at: seq<nat>, j: nat)
    requires Separated(items, |original|) && k + |at| == |items| && j <= |at|
  {
    var from := if j == 0 then 0 else at[j - 1] + NewSize(original, items[k + j - 1], docFor);
    var to := if j == |at| then |r| else at[j];
    var first := if j == 0 then pos else EditEnd(items[k + j - 1]);
    var last := if j == |at| then |original| else EditStart(items[k + j]);
    from <= to <= |r| && first <= last <= |original| && r[from..to] == original[first..last]
  }

  /** The lines from `pos` on with the edits of items `k` and on at positions `at`, and all other lines kept between them. */
  ghost predicate Assembled(original: seq<string>, r: seq<string>, items: seq<Item>, docFor: DocSource, k: nat, pos: nat, at: seq<nat>)
    requires Separated(items, |original|)
  {
    && k + |at| == |items|
    && (forall j :: 0 <= j <= |at| ==> GapAt(original, r, items, docFor, k, pos, at, j))
    && (forall j :: 0 <= j < |at| ==> BlockAt(original, r, items[k + j], docFor, at[j]))
  }

  lemma ReplacementBlock(original: seq<string>, item: Item, docFor: DocSource)
    requires Fits(item, |original|)
    ensures |Replacement(original, item, docFor)| == NewSize(original, item, docFor)
    ensures BlockAt(original, Replacement(original, item, docFor), item, docFor, 0)
  {
    hide Format, CommentLine, Indent;
    FormatLines(docFor(item, original[item.fnLine]), original[item.fnLine]);
    var r := Replacement(original, item, docFor);
    assert r[0..|r|] == r;
  }

  lemma BlockShift(original: seq<string>, before: seq<string>, r: seq<string>, after: seq<string>, item: Item, docFor: DocSource, a: nat)
    requires Fits(item, |original|) && BlockAt(original, r, item, docFor, a)
    ensures BlockAt(original, before + r + after, item, docFor, |before| + a)
  {
    hide Comment;
    var all, o, size := before + r + after, |before|, NewSize(original, item, docFor);
    assert all[o + a..o + a + size] == r[a..a + size];
  }

  /** Applying all edits puts every comment and every other line in its place. */
  lemma {:induction false} RewrittenAssembled(original: seq<string>, items: seq<Item>, docFor: DocSource, k: nat, pos: nat) returns (at: seq<nat>)
    requires Separated(items, |original|) && k <= |items|
    requires pos <= if k < |items| then EditStart(items[k]) else |original|
    ensures Assembled(original, Rewritten(original, items, docFor, k, pos), items, docFor, k, pos, at)
    decreases |items| - k
  {
    hide Rewritten, Replacement, BlockAt, Assembled;
    if k == |items| {
      NoMoreEdits(original, items, docFor, pos);
      AssembledEnd(original, items, docFor, pos);
      return [];
    }
    RewrittenUnfold(original, items, docFor, k, pos);
    var item := items[k];
    var a, b, c := original[pos..EditStart(item)], Replacement(original, item, docFor), Rewritten(original, items, docFor, k + 1, EditEnd(item));
    var later := RewrittenAssembled(original, items, docFor, k + 1, EditEnd(item));
    ReplacementBlock(original, item, docFor);
    at := Prepended(original, items, docFor, k, pos, a, b, c, later);
  }

  lemma AssembledEnd(original: seq<string>, items: seq<Item>, docFor: DocSource, pos: nat)
    requires Separated(items, |original|) && pos <= |original|
    ensures Assembled(original, original[pos..], items, docFor, |items|, pos, [])
  {
    hide Separated;
    assert original[pos..][0..|original| - pos] == original[pos..|original|];
  }

  lemma ItemFits(items: seq<Item>, n: nat, j: nat)
    requires Separated(items, n) && j < |items|
    ensures Fits(items[j], n)
  {
  }

  lemma Prepended(original: seq<string>, items: seq<Item>, docFor: DocSource, k: nat, pos: nat,
                  a: seq<string>, b: seq<string>, c: seq<string>, later: seq<nat>) returns (at: seq<nat>)
    requires Separated(items, |original|) && k < |items| && pos <= EditStart(items[k]) && a == original[pos..EditStart(items[k])]
    requires Fits(items[k], |original|) && |b| == NewSize(original, items[k], docFor) && BlockAt(original, b, items[k], docFor, 0)
    requires Assembled(original, c, items, docFor, k + 1, EditEnd(items[k]), later)
    ensures Assembled(original, a + b + c, items, docFor, k, pos, at)
  {
    hide BlockAt, NewSize, Separated, EditStart, EditEnd;
    var r, o := a + b + c, |a| + |b|;
    at := [|a|] + seq(|later|, i requires 0 <= i < |later| => o + later[i]);
    forall j | 0 <= j < |at|
      ensures Fits(items[k + j], |original|) && BlockAt(original, r, items[k + j], docFor, at[j])
    {
      ItemFits(items, |original|, k + j);
      if j == 0 {
        BlockShift(original, a, b, c, items[k], docFor, 0);
      } else {
        assert items[k + j] == items[k + 1 + (j - 1)];
        BlockShift(original, a + b, c, [], items[k + j], docFor, later[j - 1]);
        assert a + b + c + [] == a + b + c;
      }
    }
    forall j | 0 <= j <= |at|
      ensures GapAt(original, r, items, docFor, k, pos, at, j)
    {
      if j == 0 {
        assert r[..|a|] == a;
      } else {
        assert GapAt(original, c, items, docFor, k + 1, EditEnd(items[k]), later, j - 1);
        GapShift(original, items, docFor, k, pos, a, b, c, later, at, j);
      }
    }
  }

  lemma GapShift(original: seq<string>, items: seq<Item>, docFor: DocSource, k: nat, pos: nat,
                 a: seq<string>, b: seq<string>, c: seq<string>, later: seq<nat>, at: seq<nat>, j: nat)
    requires Separated(items, |original|) && k < |items| && |b| == NewSize(original, items[k], docFor)
    requires k + 1 + |later| == |items| && |at| == |later| + 1 && 0 < j <= |at|
    requires at[0] == |a| && forall i :: 0 < i < |at| ==> at[i] == |a| + |b| + later[i - 1]
    requires GapAt(original, c, items, docFor, k + 1, EditEnd(items[k]), later, j - 1)
    ensures GapAt(original, a + b + c, items, docFor, k, pos, at, j)
  {
    hide NewSize, Separated, EditStart, EditEnd;
    var o := |a| + |b|;
    ItemFits(items, |original|, k + j - 1);
    var from := if j == 1 then 0 else later[j - 2] + NewSize(original, items[k + j - 1], docFor);
    var to := if j == |at| then |c| else later[j - 1];
    assert items[k + 1 + (j - 1) - 1] == items[k + j - 1];
    assert (a + b + c)[o + from..o + to] == c[from..to];
  }

  /** Above a documented function stands its comment, down to the lines that stood between comment and function. */
  ghost predicate Documented(original: seq<string>, lines: seq<string>, item: Item, docs: seq<string>)
    requires Fits(item, |original|)
  {
    exists a: nat :: StandsAt(original, lines, item, docs, a)
  }

  ghost predicate StandsAt(original: seq<string>, lines: seq<string>, item: Item, docs: seq<string>, a: nat)
    requires Fits(item, |original|)
  {
    var fn := a + |docs| + item.fnLine - EditEnd(item);
    && fn < |lines| && Comment(lines[a..a + |docs|], original[item.fnLine], docs)
    && ReadBack(lines[a..a + |docs|]) == docs
    && lines[a + |docs|..fn + 1] == original[EditEnd(item)..item.fnLine + 1]
  }

  lemma AssembledDocumented(original: seq<string>, r: seq<string>, items: seq<Item>, docFor: DocSource, at: seq<nat>, k: nat)
    requires Separated(items, |original|) && Assembled(original, r, items, docFor, 0, 0, at) && k < |items|
    requires Fits(items[k], |original|) && docFor(items[k], original[items[k].fnLine]) != []
    ensures Documented(original, r, items[k], docFor(items[k], original[items[k].fnLine]))
  {
    hide Comment;
    var item := items[k];
    var docs, a, between := docFor(item, original[item.fnLine]), at[k], item.fnLine - EditEnd(item);
    assert BlockAt(original, r, items[0 + k], docFor, at[k]);
    assert GapAt(original, r, items, docFor, 0, 0, at, k + 1);
    var last := if k + 1 == |at| then |original| else EditStart(items[k + 1]);
    var to := if k + 1 == |at| then |r| else at[k + 1];
    assert item.fnLine + 1 <= last;
    GapPart(r, a + |docs|, to, original, EditEnd(item), last, between + 1);
    CommentReadBack(r[a..a + |docs|], original[item.fnLine], docs);
    hide ReadBack;
    assert StandsAt(original, r, item, docs, a);
  }

  lemma GapPart(r: seq<string>, from: nat, to: nat, original: seq<string>, first: nat, last: nat, n: nat)
    requires from <= to <= |r| && first <= last <= |original| && r[from..to] == original[first..last] && first + n <= last
    ensures from + n <= to && r[from..from + n] == original[first..first + n]
  {
    assert |r[from..to]| == |original[first..last]|;
    assert r[from..from + n] == r[from..to][..n] && original[first..first + n] == original[first..last][..n];
  }

  /** Parsing a file and splicing all its comments. */
  method ProcessFile(original: seq<string>, fnOf: string -> Option<string>, docFor: DocSource) returns (lines: seq<string>, updates: nat)
    ensures updates == 0 ==> lines == original
    ensures exists items ::
              && updates == CountChanges(original, items, docFor, 0)
              && ItemsOf(original, fnOf, items, |original|) && Separated(items, |original|)
              && lines == Rewritten(original, items, docFor, 0, 0)
              && (Code(lines) == Code(original) <==> OnlyDocsReplaced(original, items, docFor, 0))
              && (exists at :: Assembled(original, lines, items, docFor, 0, 0, at))
              && AllDocumented(original, lines, items, docFor)
  {
    hide Assembled, AllDocumented, CountChanges;
    hide ItemsOf, Separated, Rewritten, OnlyDocsReplaced, Code;
    var items := ParseItems(original, fnOf);
    ParsedSeparated(original, fnOf, items);
    lines, updates := SpliceAll(original, items, docFor);
    EditsStart(items, |original|);
    CodeSurvives(original, items, docFor, 0, 0);
    assert original[0..] == original;
    ghost var at := RewrittenAssembled(original, items, docFor, 0, 0);
    EveryDocumented(original, lines, items, docFor, at);
  }

  /** Every function for which there is documentation has it above it. */
  ghost predicate AllDocumented(original: seq<string>, lines: seq<string>, items: seq<Item>, docFor: DocSource) {
    forall k :: 0 <= k < |items| && Fits(items[k], |original|) && docFor(items[k], original[items[k].fnLine]) != [] ==>
      Documented(original, lines, items[k], docFor(items[k], original[items[k].fnLine]))
  }

  lemma EveryDocumented(original: seq<string>, lines: seq<string>, items: seq<Item>, docFor: DocSource, at: seq<nat>)
    requires Separated(items, |original|) && Assembled(original, lines, items, docFor, 0, 0, at)
    ensures AllDocumented(original, lines, items, docFor)
  {
    hide Documented, Assembled, Separated;
    forall k | 0 <= k < |items| && Fits(items[k], |original|) && docFor(items[k], original[items[k].fnLine]) != []
      ensures Documented(original, lines, items[k], docFor(items[k], original[items[k].fnLine]))
    {
      AssembledDocumented(original, lines, items, docFor, at, k);
    }
  }

  lemma EditsStart(items: seq<Item>, n: nat)
    requires Separated(items, n)
    ensures 0 <= if 0 < |items| then EditStart(items[0]) else n
  {
  }

  const SAMPLE: seq<string> := ["/// a", "#[x]", "/// b", "fn py_f() {"]

  lemma SampleLines()
    ensures IsDoc("/// a") && IsDoc("/// b") && !IsDoc("#[x]") && !IsDoc("fn py_f() {")
    ensures IsAttr("#[x]") && Closes("#[x]") && !IsAttr("fn py_f() {")
    ensures !IsAttr("/// a") && !IsAttr("/// b")
  {
    assert LeftStrip("/// a") == "/// a" && "/// a"[..3] == "///";
    assert LeftStrip("/// b") == "/// b" && "/// b"[..3] == "///";
    assert LeftStrip("#[x]") == "#[x]" == RightStrip("#[x]") && "#[x]"[..2] == "#[";
    assert LeftStrip("fn py_f() {") == "fn py_f() {";
    assert "#[x]"[0] != "///"[0] && "fn py_f() {"[0] != "///"[0] && "fn py_f() {"[0] != "#["[0] && "/// a"[0] != "#["[0];
  }

  lemma SampleBlock()
    ensures DocAt(SAMPLE, 0) && AttrAt(SAMPLE, 1) && DocAt(SAMPLE, 2) && !AttrAt(SAMPLE, 0) && !DocAt(SAMPLE, 1)
    ensures HeaderAt(SAMPLE, 0) && HeaderAt(SAMPLE, 1) && HeaderAt(SAMPLE, 2) && !HeaderAt(SAMPLE, 3)
    ensures Block(SAMPLE, 3) == 0
  {
    hide IsDoc, IsAttr, Closes;
    SampleLines();
    assert !InAttr(SAMPLE, 0);
    assert !InAttr(SAMPLE, 1);
    assert !InAttr(SAMPLE, 2);
    assert !InAttr(SAMPLE, 3);
    assert Block(SAMPLE, 1) == 0;
    assert Block(SAMPLE, 2) == 0;
  }

  /** The parse of the sample: one function whose comment range holds the attribute. */
  lemma SampleParse(fnOf: string -> Option<string>)
    requires fnOf("fn py_f() {") == Some("py_f")
    ensures ItemsOf(SAMPLE, fnOf, [Item("py_f", 3, Some((0, 2)), 0)], 4)
  {
    hide IsDoc, IsAttr, Closes, InAttr, Block, HeaderAt, DocAt, AttrAt;
    SampleBlock();
    var item := Item("py_f", 3, Some((0, 2)), 0);
    assert FirstAttr(SAMPLE, 0, 3, Some(1));
    assert DocRange(SAMPLE, 0, 3, Some((0, 2)));
    assert ItemOf(SAMPLE, fnOf, item);
    assert [item][0].fnLine == 3;
    assert forall i :: 0 <= i < 4 && FnAt(SAMPLE, fnOf, i) ==> i == 3;
  }

  /** An attribute between two comment lines lies in the range that a new comment replaces, and is lost. */
  lemma AttributeBetweenDocsLost(fnOf: string -> Option<string>, docFor: DocSource)
    requires fnOf("fn py_f() {") == Some("py_f") && docFor(Item("py_f", 3, Some((0, 2)), 0), "fn py_f() {") != []
    ensures var items := [Item("py_f", 3, Some((0, 2)), 0)];
            && ItemsOf(SAMPLE, fnOf, items, |SAMPLE|) && Separated(items, |SAMPLE|)
            && Code(Rewritten(SAMPLE, items, docFor, 0, 0)) == ["fn py_f() {"]
            && Code(SAMPLE) == ["#[x]", "fn py_f() {"]
  {
    var items := [Item("py_f", 3, Some((0, 2)), 0)];
    SampleParse(fnOf);
    SampleCode();
    hide IsDoc, ItemsOf, Code, Replacement;
    var new_ := Replacement(SAMPLE, items[0], docFor);
    SampleRewritten(docFor);
    ReplacementCode(SAMPLE, items[0], docFor);
    CodeAppend(new_, ["fn py_f() {"]);
  }

  lemma SampleCode()
    ensures Code(SAMPLE) == ["#[x]", "fn py_f() {"] && Code(["fn py_f() {"]) == ["fn py_f() {"]
  {
    SampleLines();
    hide IsDoc;
    assert SAMPLE[1..] == ["#[x]", "/// b", "fn py_f() {"] && SAMPLE[1..][1..] == ["/// b", "fn py_f() {"];
    assert ["/// b", "fn py_f() {"][1..] == ["fn py_f() {"] && ["fn py_f() {"][1..] == [];
  }

  lemma SampleRewritten(docFor: DocSource)
    ensures var items := [Item("py_f", 3, Some((0, 2)), 0)];
            && Separated(items, |SAMPLE|)
            && Rewritten(SAMPLE, items, docFor, 0, 0) == Replacement(SAMPLE, items[0], docFor) + ["fn py_f() {"]
  {
    var items := [Item("py_f", 3, Some((0, 2)), 0)];
    assert Separated(items, |SAMPLE|);
    hide Replacement, Separated;
    assert SAMPLE[0..0] == [] && SAMPLE[3..] == ["fn py_f() {"];
    RewrittenUnfold(SAMPLE, items, docFor, 0, 0);
  }
}
