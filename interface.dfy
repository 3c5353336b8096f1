/**
  The connection list of the terminal interface (lib/interface.ts): which SSH-config `Host`
  entries are listed, how each is labelled, and how a selected label is read back into a
  toggle request. Only these string and sequence computations are modelled.
 */
module Interface {
  import opened Wrappers

  /** One directive inside a `Host` block; a missing `param` is the empty string. */
  datatype ConfigLine = ConfigLine(param: string, value: string)

  /** One top-level row of the parsed SSH config; a missing `config` is the empty sequence. */
  datatype ConfigRow = ConfigRow(param: string, value: string, config: seq<ConfigLine>)

  /** `part` occurs in `s` starting at position `i`. */
  predicate OccursAt(s: string, part: string, i: nat)
  {
    i + |part| <= |s| && s[i..i + |part|] == part
  }

  /** `s.includes(part)`: `part` occurs in `s` as a contiguous piece. */
  function Contains(s: string, part: string): (b: bool)
    ensures b <==> exists i: nat :: OccursAt(s, part, i)
    decreases |s|
  {
    if |s| < |part| then false
    else if s[..|part|] == part then assert OccursAt(s, part, 0); true
    else ContainsShift(s, part); Contains(s[1..], part)
  }

  /** Past the first position, an occurrence in `s` is an occurrence in `s[1..]`. */
  lemma ContainsShift(s: string, part: string)
    requires |part| <= |s| && s[..|part|] != part
    ensures (exists i: nat :: OccursAt(s, part, i)) <==> (exists i: nat :: OccursAt(s[1..], part, i))
  {
    forall i: nat | OccursAt(s, part, i) ensures i > 0 && OccursAt(s[1..], part, i - 1) {
      assert s[1..][i - 1..i - 1 + |part|] == s[i..i + |part|];
    }
    forall i: nat | OccursAt(s[1..], part, i) ensures OccursAt(s, part, i + 1) {
      assert s[1..][i..i + |part|] == s[i + 1..i + 1 + |part|];
    }
  }

  /** The position of the entry `find(conf => conf.param && conf.param.includes(key))` returns. */
  function FindParam(lines: seq<ConfigLine>, key: string): (r: Option<nat>)
    ensures r.None? <==> forall i :: 0 <= i < |lines| ==> !Contains(lines[i].param, key)
    ensures r.Some? ==>
      r.value < |lines| && Contains(lines[r.value].param, key) &&
      forall j :: 0 <= j < r.value ==> !Contains(lines[j].param, key)
  {
    if lines == [] then None
    else if Contains(lines[0].param, key) then Some(0)
    else match FindParam(lines[1..], key)
         case None => None
         case Some(i) => Some(i + 1)
  }

  /** `i` is the first directive whose name contains `key`. */
  predicate FirstWith(lines: seq<ConfigLine>, key: string, i: int)
  {
    0 <= i < |lines| && Contains(lines[i].param, key) &&
    forall j :: 0 <= j < i ==> !Contains(lines[j].param, key)
  }

  /** The two filters: a `Host` row with some LocalForward directive, unless the first
      KeymasterIgnore directive says `yes`. */
  function Keep(row: ConfigRow): (b: bool)
    ensures b <==>
      row.param == "Host" &&
      (exists i :: 0 <= i < |row.config| && Contains(row.config[i].param, "LocalForward")) &&
      !(exists i :: FirstWith(row.config, "KeymasterIgnore", i) && row.config[i].value == "yes")
  {
    row.param == "Host" &&
    FindParam(row.config, "LocalForward").Some? &&
    match FindParam(row.config, "KeymasterIgnore")
    case None => true
    case Some(i) => row.config[i].value != "yes"
  }

  /** `a` is `b` with some elements left out, the rest in their order. */
  predicate IsSubsequence<T(==)>(a: seq<T>, b: seq<T>)
    decreases |b|
  {
    a == [] || (b != [] && ((a[0] == b[0] && IsSubsequence(a[1..], b[1..])) || IsSubsequence(a, b[1..])))
  }

  /** The rows that pass both filters, in their original order. */
  function ListedRows(rows: seq<ConfigRow>): (r: seq<ConfigRow>)
    ensures forall x :: x in r ==> x in rows && Keep(x)
    ensures forall x :: x in rows && Keep(x) ==> x in r
    ensures forall x :: multiset(r)[x] == if Keep(x) then multiset(rows)[x] else 0
    ensures IsSubsequence(r, rows)
  {
    if rows == [] then []
    else
      var tail := ListedRows(rows[1..]);
      assert multiset(rows) == multiset([rows[0]]) + multiset(rows[1..]) by {
        assert rows == [rows[0]] + rows[1..];
      }
      if Keep(rows[0]) then
        assert multiset([rows[0]] + tail) == multiset([rows[0]]) + multiset(tail);
        [rows[0]] + tail
      else tail
  }

  /** The label of a list entry. */
  function Label(name: string, active: bool): (r: string)
    ensures |r| == |name| + 4 && r[4..] == name
    ensures r[0] == '[' && r[2] == ']' && r[3] == ' '
    ensures r[1] == (if active then 'X' else ' ')
  {
    (if active then "[X] " else "[ ] ") + name
  }

  /** The items of the connection list: the label of each listed row, marked when its name is
      among the active names. */
  function ConnectionItems(rows: seq<ConfigRow>, activeNames: seq<string>): (r: seq<string>)
    ensures |r| == |ListedRows(rows)|
    ensures forall i :: 0 <= i < |r| ==>
      |r[i]| >= 4 && r[i][4..] == ListedRows(rows)[i].value &&
      r[i][..4] == (if ListedRows(rows)[i].value in activeNames then "[X] " else "[ ] ")
  {
    var listed := ListedRows(rows);
    seq(|listed|, i requires 0 <= i < |listed| => Label(listed[i].value, listed[i].value in activeNames))
  }

  /** Every item labels a listed row, marked exactly when the row's name is active, and every
      listed row has its item; the items follow the order of the rows. */
  lemma ItemsLabelListedRows(rows: seq<ConfigRow>, activeNames: seq<string>)
    ensures |ConnectionItems(rows, activeNames)| == |ListedRows(rows)| <= |rows|
    ensures forall i :: 0 <= i < |ListedRows(rows)| ==>
      ListedRows(rows)[i] in rows && Keep(ListedRows(rows)[i]) &&
      ConnectionItems(rows, activeNames)[i] ==
        Label(ListedRows(rows)[i].value, ListedRows(rows)[i].value in activeNames)
    ensures forall row :: row in rows && Keep(row) ==>
      Label(row.value, row.value in activeNames) in ConnectionItems(rows, activeNames)
    ensures IsSubsequence(ListedRows(rows), rows)
  {
    var listed := ListedRows(rows);
    SubsequenceNoLonger(listed, rows);
    forall row | row in rows && Keep(row)
      ensures Label(row.value, row.value in activeNames) in ConnectionItems(rows, activeNames)
    {
      var i :| 0 <= i < |listed| && listed[i] == row;
      assert ConnectionItems(rows, activeNames)[i] == Label(row.value, row.value in activeNames);
    }
  }

  lemma {:induction false} SubsequenceNoLonger<T>(a: seq<T>, b: seq<T>)
    requires IsSubsequence(a, b)
    ensures |a| <= |b|
    decreases |b|
  {
    if a != [] {
      if a[0] == b[0] && IsSubsequence(a[1..], b[1..]) {
        SubsequenceNoLonger(a[1..], b[1..]);
      } else {
        SubsequenceNoLonger(a, b[1..]);
      }
    }
  }

  // ---------------------------------------------------------------------------------------
  // Reading a selected label back
  // ---------------------------------------------------------------------------------------

  /** The characters `String.prototype.trim` removes: ECMAScript WhiteSpace and LineTerminator. */
  predicate IsJsWhitespace(c: char)
  {
    c == '\t' || c == '\n' || c == '\U{B}' || c == '\U{C}' || c == '\r' || c == ' ' ||
    c == '\U{A0}' || c == '\U{1680}' || ('\U{2000}' <= c <= '\U{200A}') ||
    c == '\U{2028}' || c == '\U{2029}' || c == '\U{202F}' || c == '\U{205F}' ||
    c == '\U{3000}' || c == '\U{FEFF}'
  }

  function TrimStart(s: string): (r: string)
    ensures |r| <= |s| && r == s[|s| - |r|..]
    ensures forall k :: 0 <= k < |s| - |r| ==> IsJsWhitespace(s[k])
    ensures r == [] || !IsJsWhitespace(r[0])
  {
    if s != [] && IsJsWhitespace(s[0]) then TrimStart(s[1..]) else s
  }

  function TrimEnd(s: string): (r: string)
    ensures |r| <= |s| && r == s[..|r|]
    ensures forall k :: |r| <= k < |s| ==> IsJsWhitespace(s[k])
    ensures r == [] || !IsJsWhitespace(r[|r| - 1])
  {
    if s != [] && IsJsWhitespace(s[|s| - 1]) then TrimEnd(s[..|s| - 1]) else s
  }

  /** `s.trim()` */
  function Trim(s: string): (r: string)
    ensures r == [] || (!IsJsWhitespace(r[0]) && !IsJsWhitespace(r[|r| - 1]))
    ensures exists a, b :: (0 <= a <= b <= |s| && r == s[a..b] &&
      forall k :: (0 <= k < a || b <= k < |s|) ==> IsJsWhitespace(s[k]))
    ensures forall c :: c in r ==> c in s
  {
    var t := TrimStart(s);
    var r := TrimEnd(t);
    var a := |s| - |t|;
    assert r == s[a..a + |r|];
    assert forall k :: a + |r| <= k < |s| ==> s[k] == t[k - a];
    r
  }

  /** The position of the first occurrence of `c` in `s`. */
  function IndexOf(s: string, c: char): (r: Option<nat>)
    ensures r.None? <==> c !in s
    ensures r.Some? ==> r.value < |s| && s[r.value] == c && c !in s[..r.value]
  {
    if s == [] then None
    else if s[0] == c then Some(0)
    else match IndexOf(s[1..], c)
         case None => None
         case Some(i) => Some(i + 1)
  }

  /** The pair a label is read back into. */
  datatype Selection = Selection(active: bool, name: string)

  /** A name that survives the label round trip: no `]`, no whitespace at either end. */
  predicate PlainName(name: string)
  {
    ']' !in name && (name != [] ==> !IsJsWhitespace(name[0]) && !IsJsWhitespace(name[|name| - 1]))
  }

  /**
    `content.split(']')`, then `tmp[0].includes('X')` and `tmp[1].trim()`. Without any `]`,
    `tmp[1]` is undefined and the handler throws: the result is None.
   */
  function ParseLabel(content: string): (r: Option<Selection>)
    ensures r.None? <==> ']' !in content
    ensures r.Some? ==> PlainName(r.value.name)
  {
    match IndexOf(content, ']')
    case None => None
    case Some(i) =>
      var rest := content[i + 1..];
      var second := match IndexOf(rest, ']') case None => rest case Some(j) => rest[..j];
      Some(Selection('X' in content[..i], Trim(second)))
  }

  /** `IndexOf` finds the first occurrence and no other. */
  lemma {:induction false} IndexOfFirst(s: string, c: char, i: nat)
    requires i < |s| && s[i] == c && c !in s[..i]
    ensures IndexOf(s, c) == Some(i)
  {
    if i > 0 {
      assert s[0] in s[..i];
      assert s[1..][..i - 1] == s[1..i];
      assert forall x :: x in s[1..i] ==> x in s[..i];
      IndexOfFirst(s[1..], c, i - 1);
    }
  }

  /** Parsing is anchored at the first `]`: the flag is whether an `X` comes before it, and
      the name is the trimmed text up to the next `]` or the end. */
  lemma ParseLabelSplitsAtFirstBracket(content: string, i: nat)
    requires i < |content| && content[i] == ']' && ']' !in content[..i]
    ensures ParseLabel(content).Some?
    ensures ParseLabel(content).value.active <==> 'X' in content[..i]
    ensures ']' !in content[i + 1..] ==> ParseLabel(content).value.name == Trim(content[i + 1..])
  {
    IndexOfFirst(content, ']', i);
  }

  /** With a second `]` at `j`, the name is the trimmed text between the two brackets. */
  lemma ParseLabelNameBetweenBrackets(content: string, i: nat, j: nat)
    requires i < j < |content| && content[i] == ']' && content[j] == ']'
    requires ']' !in content[..i] && ']' !in content[i + 1..j]
    ensures ParseLabel(content).Some?
    ensures ParseLabel(content).value.name == Trim(content[i + 1..j])
  {
    IndexOfFirst(content, ']', i);
    var rest := content[i + 1..];
    var k := j - (i + 1);
    assert rest[k] == ']';
    assert rest[..k] == content[i + 1..j];
    IndexOfFirst(rest, ']', k);
    ParseLabelAt(content, i, k);
  }

  /** `ParseLabel` once both bracket positions are known. */
  lemma ParseLabelAt(content: string, i: nat, k: nat)
    requires i < |content| && IndexOf(content, ']') == Some(i)
    requires IndexOf(content[i + 1..], ']') == Some(k)
    ensures ParseLabel(content) == Some(Selection('X' in content[..i], Trim(content[i + 1..][..k])))
  {
  }

  /** Trimming the space after the bracket gives back a plain name. */
  lemma TrimSpacedPlainName(name: string)
    requires PlainName(name)
    ensures Trim(" " + name) == name
  {
    assert (" " + name)[1..] == name;
    assert TrimStart(" " + name) == TrimStart(name);
    if name != [] {
      assert TrimStart(name) == name;
      assert TrimEnd(name) == name;
    }
  }

  /** Round trip: reading back a label gives the name and flag it was made from. */
  lemma LabelRoundTrip(name: string, active: bool)
    requires PlainName(name)
    ensures ParseLabel(Label(name, active)) == Some(Selection(active, name))
  {
    var content := Label(name, active);
    assert content[..2] == (if active then "[X" else "[ ");
    assert content[3..] == " " + name;
    ParseLabelSplitsAtFirstBracket(content, 2);
    TrimSpacedPlainName(name);
  }

  /** What selecting an item asks the registry to do. */
  datatype Toggle = ActivateName(name: string) | DeactivateName(name: string)

  /** The `select` handler: a marked label deactivates its name, an unmarked one activates it. */
  function SelectAction(content: string): (r: Option<Toggle>)
    ensures r.None? <==> ']' !in content
  {
    match ParseLabel(content)
    case None => None
    case Some(sel) => Some(if sel.active then DeactivateName(sel.name) else ActivateName(sel.name))
  }

  /** Selecting a label toggles the state it shows. */
  lemma SelectTogglesLabel(name: string, active: bool)
    requires PlainName(name)
    ensures SelectAction(Label(name, active)) ==
      Some(if active then DeactivateName(name) else ActivateName(name))
  {
    LabelRoundTrip(name, active);
  }

  /** Selecting an item of the connection list deactivates its row's name when that name is
      active and activates it otherwise. */
  lemma SelectListedItem(rows: seq<ConfigRow>, activeNames: seq<string>, i: nat)
    requires i < |ListedRows(rows)|
    requires PlainName(ListedRows(rows)[i].value)
    ensures i < |ConnectionItems(rows, activeNames)|
    ensures var name := ListedRows(rows)[i].value;
      SelectAction(ConnectionItems(rows, activeNames)[i]) ==
        Some(if name in activeNames then DeactivateName(name) else ActivateName(name))
  {
    var listed := ListedRows(rows);
    var name := listed[i].value;
    var items := ConnectionItems(rows, activeNames);
    assert |items| == |listed| && items[i] == Label(name, name in activeNames);
    SelectTogglesLabel(name, name in activeNames);
  }
}
