/** The edit that adds a journey's import to app.ts (upstream/scripts/cuj-new.ts). */
module JourneyImport {
  import opened Common
  import opened Text

  const OPEN := "await Promise.all(["
  const CLOSE := "]);"
  const INDENT := "          "
  const LAST_LINE := "        "

  /** A match of the block's pattern: where it starts, where its closing bracket is, where the match
      ends. */
  datatype Block = Block(start: nat, close: nat, end: nat)

  datatype Outcome = Done(next: string) | NoBlock | AlreadyImported

  // ---- the pattern ------------------------------------------------------------------------------

  /** What JavaScript's trim and \s take for white space. */
  predicate IsSpace(c: char) {
    || '\U{0009}' <= c <= '\U{000D}' || c == ' ' || c == '\U{00A0}' || c == '\U{1680}'
    || '\U{2000}' <= c <= '\U{200A}' || c == '\U{2028}' || c == '\U{2029}' || c == '\U{202F}'
    || c == '\U{205F}' || c == '\U{3000}' || c == '\U{FEFF}'
  }

  predicate AllSpace(s: string) {
    forall k | 0 <= k < |s| :: IsSpace(s[k])
  }

  /** s[i..e] is on one line and ends in "journey". */
  predicate EndsJourney(s: string, i: nat, e: nat) {
    i + 7 <= e <= |s| && OccursAt(s, "journey", e - 7) && '\n' !in s[i..e]
  }

  /** s[i..e] is white space, two slashes at j, and characters of one line that end in "journey". */
  predicate IsComment(s: string, i: nat, j: nat, e: nat) {
    i <= j <= |s| && AllSpace(s[i..j]) && OccursAt(s, "//", j) && EndsJourney(s, j + 2, e)
  }

  ghost predicate IsCommentEnd(s: string, i: nat, e: nat) {
    exists j: nat :: IsComment(s, i, j, e)
  }

  function SkipSpaces(s: string, i: nat): (j: nat)
    requires i <= |s|
    ensures i <= j <= |s|
    decreases |s| - i
  {
    if i < |s| && IsSpace(s[i]) then SkipSpaces(s, i + 1) else i
  }

  /** The end of the last "journey" on the line that starts at i. */
  function LastJourney(s: string, i: nat): (r: Option<nat>)
    requires i <= |s|
    ensures r.Some? ==> i + 7 <= r.value <= |s|
    decreases |s| - i
  {
    if i == |s| then None
    else
      var later := if s[i] == '\n' then None else LastJourney(s, i + 1);
      if later.Some? then later else if OccursAt(s, "journey", i) then Some(i + 7) else None
  }

  /** The optional group of the pattern, at i. */
  function CommentEnd(s: string, i: nat): (r: Option<nat>)
    requires i <= |s|
    ensures r.Some? ==> i <= r.value <= |s|
  {
    var j := SkipSpaces(s, i);
    if OccursAt(s, "//", j) then LastJourney(s, j + 2) else None
  }

  /** The leftmost match: the first opening, the first closing after it, and the comment. */
  function Match(s: string): (b: Option<Block>)
    ensures b.Some? ==> b.value.start + |OPEN| <= b.value.close && b.value.close + |CLOSE| <= b.value.end <= |s|
  {
    var start := IndexOf(s, OPEN, 0);
    if start == -1 then None
    else
      var close := IndexOf(s, CLOSE, start + |OPEN|);
      if close == -1 then None
      else
        match CommentEnd(s, close + |CLOSE|)
        case Some(end) => Some(Block(start, close, end))
        case None => Some(Block(start, close, close + |CLOSE|))
  }

  function Inside(s: string, b: Block): string
    requires b.start + |OPEN| <= b.close <= |s|
  {
    s[b.start + |OPEN|..b.close]
  }

  // ---- the items --------------------------------------------------------------------------------

  /** s.split(',') */
  function Split(s: string): (r: seq<string>)
    ensures |r| > 0
  {
    if s == "" then [""]
    else if s[0] == ',' then [""] + Split(s[1..])
    else
      var r := Split(s[1..]);
      [[s[0]] + r[0]] + r[1..]
  }

  function TrimStart(s: string): string {
    if s != "" && IsSpace(s[0]) then TrimStart(s[1..]) else s
  }

  function TrimEnd(s: string): string {
    if s != "" && IsSpace(s[|s| - 1]) then TrimEnd(s[..|s| - 1]) else s
  }

  function Trim(s: string): string {
    TrimEnd(TrimStart(s))
  }

  /** Trimmed, without the empty ones. */
  function Kept(pieces: seq<string>): seq<string> {
    if pieces == [] then []
    else (if Trim(pieces[0]) == "" then [] else [Trim(pieces[0])]) + Kept(pieces[1..])
  }

  function Items(inside: string): seq<string> {
    Kept(Split(inside))
  }

  /** items.join(', ') */
  function Joined(items: seq<string>): string {
    if items == [] then ""
    else if |items| == 1 then items[0]
    else items[0] + "," + (" " + Joined(items[1..]))
  }

  /** The lines between the opening and the closing bracket. */
  function Lines(items: seq<string>): string {
    if items == [] then "\n" + LAST_LINE
    else ("\n" + INDENT + items[0]) + "," + Lines(items[1..])
  }

  function ImportPath(camel: string): string {
    "./core/journeys/" + camel
  }

  function ImportItem(camel: string): string {
    "import('" + ImportPath(camel) + "')"
  }

  function OneLine(items: seq<string>): string {
    OPEN + Joined(items) + CLOSE
  }

  /** What stands between the brackets after the edit. */
  function Emitted(inside: string, camel: string): string {
    var items := Items(inside) + [ImportItem(camel)];
    if '\n' !in inside && |OneLine(items)| <= 120 then Joined(items) else Lines(items)
  }

  function Edit(s: string, camel: string): Outcome {
    match Match(s)
    case None => NoBlock
    case Some(b) =>
      if Includes(Inside(s, b), ImportPath(camel)) then AlreadyImported
      else Done(s[..b.start] + (OPEN + Emitted(Inside(s, b), camel) + CLOSE) + s[b.end..])
  }

  /** modifyAppTs */
  method ModifyAppTs(original: string, camel: string) returns (r: Outcome)
    ensures r == Edit(original, camel)
  {
    var found := Match(original);
    if found == None {
      return NoBlock;
    }
    var block := found.value;
    var inside := Inside(original, block);
    var importPath := "./core/journeys/" + camel;
    if Includes(inside, importPath) {
      return AlreadyImported;
    }
    var items := Kept(Split(inside));
    items := items + ["import('" + importPath + "')"];
    var oneLine := OPEN + Joined(items) + CLOSE;
    var wasSingleLine := '\n' !in inside;
    var replacement;
    if wasSingleLine && |oneLine| <= 120 {
      replacement := oneLine;
    } else {
      replacement := OPEN + Lines(items) + CLOSE;
    }
    return Done(original[..block.start] + replacement + original[block.end..]);
  }

  /** The imports a text lists. */
  function Imports(s: string): seq<string>
    requires Match(s).Some?
  {
    Items(Inside(s, Match(s).value))
  }

  // ---- what the optional group matches ----------------------------------------------------------

  lemma {:induction false} EndsJourneyStep(s: string, i: nat, e: nat)
    requires i < |s|
    ensures EndsJourney(s, i, e) <==>
              (e == i + 7 && OccursAt(s, "journey", i)) || (s[i] != '\n' && EndsJourney(s, i + 1, e))
  {
    if i < e <= |s| {
      assert s[i..e] == [s[i]] + s[i + 1..e];
    }
  }

  lemma {:induction false} LastJourneyIsLast(s: string, i: nat)
    requires i <= |s|
    ensures LastJourney(s, i).Some? ==> EndsJourney(s, i, LastJourney(s, i).value)
    ensures forall e: nat | EndsJourney(s, i, e) ::
              LastJourney(s, i).Some? && e <= LastJourney(s, i).value
    decreases |s| - i
  {
    if i < |s| {
      LastJourneyIsLast(s, i + 1);
      forall e: nat
        ensures EndsJourney(s, i, e) <==>
                  (e == i + 7 && OccursAt(s, "journey", i)) || (s[i] != '\n' && EndsJourney(s, i + 1, e))
      {
        EndsJourneyStep(s, i, e);
      }
    }
  }

  lemma {:induction false} SkipSpacesSkips(s: string, i: nat)
    requires i <= |s|
    ensures AllSpace(s[i..SkipSpaces(s, i)])
    ensures SkipSpaces(s, i) < |s| ==> !IsSpace(s[SkipSpaces(s, i)])
    decreases |s| - i
  {
    if i < |s| && IsSpace(s[i]) {
      SkipSpacesSkips(s, i + 1);
      var j := SkipSpaces(s, i);
      assert s[i..j] == [s[i]] + s[i + 1..j];
    }
  }

  lemma {:induction false} SpaceAt(s: string, i: nat, j: nat, k: nat)
    requires i <= k < j <= |s| && AllSpace(s[i..j])
    ensures IsSpace(s[k])
  {
    assert s[i..j][k - i] == s[k];
  }

  lemma {:induction false} SlashesFollowSpaces(s: string, i: nat, j: nat, e: nat)
    requires i <= |s| && IsComment(s, i, j, e)
    ensures j == SkipSpaces(s, i)
  {
    var k := SkipSpaces(s, i);
    SkipSpacesSkips(s, i);
    OccursChar(s, "//", j, 0);
    if j < k {
      SpaceAt(s, i, k, j);
      assert false;
    }
    if k < j {
      SpaceAt(s, i, j, k);
    }
  }

  /** Of all the ends the group could have, the match takes the last. */
  lemma {:induction false} CommentEndIsLast(s: string, i: nat)
    requires i <= |s|
    ensures CommentEnd(s, i).Some? ==> IsCommentEnd(s, i, CommentEnd(s, i).value)
    ensures forall e: nat | IsCommentEnd(s, i, e) ::
              CommentEnd(s, i).Some? && e <= CommentEnd(s, i).value
  {
    var k := SkipSpaces(s, i);
    SkipSpacesSkips(s, i);
    if OccursAt(s, "//", k) {
      LastJourneyIsLast(s, k + 2);
      if CommentEnd(s, i).Some? {
        assert IsComment(s, i, k, CommentEnd(s, i).value);
      }
    }
    forall e: nat | IsCommentEnd(s, i, e)
      ensures CommentEnd(s, i).Some? && e <= CommentEnd(s, i).value
    {
      var j: nat :| IsComment(s, i, j, e);
      SlashesFollowSpaces(s, i, j, e);
    }
  }

  // ---- splitting what was joined ----------------------------------------------------------------

  /** What an item looks like: no comma, no white space around it. */
  predicate Clean(x: string) {
    x != "" && ',' !in x && !IsSpace(x[0]) && !IsSpace(x[|x| - 1])
  }

  predicate AllClean(items: seq<string>) {
    forall k | 0 <= k < |items| :: Clean(items[k])
  }

  lemma {:induction false} SplitAt(a: string, b: string)
    ensures Split(a + "," + b) == Split(a) + Split(b)
  {
    if a == "" {
      assert (a + "," + b)[1..] == b;
    } else {
      assert (a + "," + b)[1..] == a[1..] + "," + b;
      SplitAt(a[1..], b);
    }
  }

  lemma {:induction false} SplitWithoutComma(a: string)
    requires ',' !in a
    ensures Split(a) == [a]
  {
    if a != "" {
      SplitWithoutComma(a[1..]);
      assert [a[0]] + a[1..] == a;
    }
  }

  lemma {:induction false} KeptAppended(a: seq<string>, b: seq<string>)
    ensures Kept(a + b) == Kept(a) + Kept(b)
  {
    if a == [] {
      assert a + b == b;
    } else {
      assert (a + b)[1..] == a[1..] + b && (a + b)[0] == a[0];
      KeptAppended(a[1..], b);
      Regrouped(if Trim(a[0]) == "" then [] else [Trim(a[0])], Kept(a[1..]), Kept(b));
    }
  }

  lemma {:induction false} ItemsAt(a: string, b: string)
    ensures Items(a + "," + b) == Items(a) + Items(b)
  {
    SplitAt(a, b);
    KeptAppended(Split(a), Split(b));
  }

  lemma {:induction false} TrimPadded(pad: string, x: string)
    requires AllSpace(pad) && (x == "" || Clean(x))
    ensures Trim(pad + x) == x
  {
    if pad == "" {
      assert pad + x == x;
    } else {
      assert (pad + x)[1..] == pad[1..] + x;
      TrimPadded(pad[1..], x);
    }
  }

  lemma {:induction false} ItemPadded(pad: string, x: string)
    requires AllSpace(pad) && (x == "" || Clean(x))
    ensures Items(pad + x) == if x == "" then [] else [x]
  {
    assert forall k | 0 <= k < |pad| :: IsSpace(pad[k]);
    SplitWithoutComma(pad + x);
    TrimPadded(pad, x);
    assert Kept([pad + x][1..]) == [];
  }

  lemma {:induction false} ItemsOfJoined(pad: string, items: seq<string>)
    requires AllSpace(pad) && AllClean(items)
    ensures Items(pad + Joined(items)) == items
    decreases |items|
  {
    if items == [] {
      ItemPadded(pad, "");
    } else if |items| == 1 {
      ItemPadded(pad, items[0]);
    } else {
      var rest := " " + Joined(items[1..]);
      assert pad + Joined(items) == (pad + items[0]) + "," + rest;
      ItemsAt(pad + items[0], rest);
      ItemPadded(pad, items[0]);
      ItemsOfJoined(" ", items[1..]);
    }
  }

  lemma {:induction false} ItemsOfLines(items: seq<string>)
    requires AllClean(items)
    ensures Items(Lines(items)) == items
  {
    if items == [] {
      ItemPadded("\n" + LAST_LINE, "");
      assert "\n" + LAST_LINE + "" == "\n" + LAST_LINE;
    } else {
      ItemsAt("\n" + INDENT + items[0], Lines(items[1..]));
      ItemPadded("\n" + INDENT, items[0]);
      ItemsOfLines(items[1..]);
    }
  }

  // ---- what the items are made of ---------------------------------------------------------------

  predicate NoClose(s: string) {
    forall i | 0 <= i < |s| :: !OccursAt(s, CLOSE, i)
  }

  /** What every item has: clean, and without a closing bracket if the whole has none. */
  predicate Piece(x: string) {
    ',' !in x && NoClose(x)
  }

  lemma {:induction false} NoCloseSlice(s: string, i: nat, j: nat)
    requires i <= j <= |s| && NoClose(s)
    ensures NoClose(s[i..j])
  {
    forall k | 0 <= k < j - i ensures !OccursAt(s[i..j], CLOSE, k) {
      if k + 3 <= j - i {
        OccursInSlice(s, i, j, CLOSE, i + k);
      }
    }
  }

  lemma {:induction false} FirstPieceIsPrefix(s: string)
    ensures |Split(s)[0]| <= |s| && s[..|Split(s)[0]|] == Split(s)[0]
  {
    if s != "" && s[0] != ',' {
      FirstPieceIsPrefix(s[1..]);
    }
  }

  lemma {:induction false} SplitGivesPieces(s: string)
    requires NoClose(s)
    ensures forall k | 0 <= k < |Split(s)| :: Piece(Split(s)[k])
  {
    if s != "" {
      NoCloseSlice(s, 1, |s|);
      assert s[1..|s|] == s[1..];
      SplitGivesPieces(s[1..]);
      FirstPieceIsPrefix(s);
      NoCloseSlice(s, 0, |Split(s)[0]|);
      assert s[0..|Split(s)[0]|] == Split(s)[0];
    }
  }

  lemma {:induction false} TrimStartGives(x: string)
    requires Piece(x)
    ensures Piece(TrimStart(x))
    ensures TrimStart(x) != "" ==> !IsSpace(TrimStart(x)[0])
  {
    if x != "" && IsSpace(x[0]) {
      NoCloseSlice(x, 1, |x|);
      assert x[1..|x|] == x[1..];
      TrimStartGives(x[1..]);
    }
  }

  lemma {:induction false} TrimEndGives(x: string)
    requires Piece(x) && (x != "" ==> !IsSpace(x[0]))
    ensures Piece(TrimEnd(x))
    ensures TrimEnd(x) != "" ==> Clean(TrimEnd(x))
  {
    if x != "" && IsSpace(x[|x| - 1]) {
      NoCloseSlice(x, 0, |x| - 1);
      assert x[0..|x| - 1] == x[..|x| - 1];
      TrimEndGives(x[..|x| - 1]);
    }
  }

  lemma {:induction false} KeptGives(pieces: seq<string>)
    requires forall k | 0 <= k < |pieces| :: Piece(pieces[k])
    ensures forall k | 0 <= k < |Kept(pieces)| :: Clean(Kept(pieces)[k]) && NoClose(Kept(pieces)[k])
  {
    if pieces != [] {
      TrimStartGives(pieces[0]);
      TrimEndGives(TrimStart(pieces[0]));
      KeptGives(pieces[1..]);
    }
  }

  lemma {:induction false} ItemsAreClean(inside: string)
    requires NoClose(inside)
    ensures AllClean(Items(inside))
    ensures forall k | 0 <= k < |Items(inside)| :: NoClose(Items(inside)[k])
  {
    SplitGivesPieces(inside);
    KeptGives(Split(inside));
  }

  // ---- no bracket closes early ------------------------------------------------------------------

  /** A character the closing does not have keeps two texts apart. */
  lemma {:induction false} NoCloseAcross(a: string, c: char, b: string)
    requires NoClose(a) && NoClose(b) && c !in CLOSE
    ensures NoClose(a + [c] + b)
  {
    var s := a + [c] + b;
    forall i | 0 <= i < |s| ensures !OccursAt(s, CLOSE, i) {
      if i + 3 <= |a| {
        OccursInSlice(s, 0, |a|, CLOSE, i);
        assert s[0..|a|] == a;
      } else if |a| < i && i + 3 <= |s| {
        OccursInSlice(s, |a| + 1, |s|, CLOSE, i);
        assert s[|a| + 1..|s|] == b;
      } else if OccursAt(s, CLOSE, i) {
        OccursChar(s, CLOSE, i, |a| - i);
      }
    }
  }

  lemma {:induction false} NoCloseIndented(pad: string, x: string)
    requires NoClose(x) && forall k | 0 <= k < |pad| :: pad[k] !in CLOSE
    ensures NoClose(pad + x)
  {
    if pad == "" {
      assert pad + x == x;
    } else {
      NoCloseIndented(pad[1..], x);
      NoCloseAcross("", pad[0], pad[1..] + x);
      assert "" + [pad[0]] + (pad[1..] + x) == pad + x;
    }
  }

  lemma {:induction false} NoCloseJoined(items: seq<string>)
    requires forall k | 0 <= k < |items| :: NoClose(items[k])
    ensures NoClose(Joined(items))
  {
    if |items| > 1 {
      NoCloseJoined(items[1..]);
      NoCloseIndented(" ", Joined(items[1..]));
      NoCloseAcross(items[0], ',', " " + Joined(items[1..]));
    }
  }

  lemma {:induction false} NoCloseLines(items: seq<string>)
    requires forall k | 0 <= k < |items| :: NoClose(items[k])
    ensures NoClose(Lines(items))
  {
    if items == [] {
      NoCloseIndented("\n" + LAST_LINE, "");
      assert "\n" + LAST_LINE + "" == "\n" + LAST_LINE;
    } else {
      NoCloseLines(items[1..]);
      NoCloseIndented("\n" + INDENT, items[0]);
      NoCloseAcross("\n" + INDENT + items[0], ',', Lines(items[1..]));
    }
  }

  /** A name as toCamelCase makes it of a type's name: what matters is what it has none of. */
  predicate IsName(camel: string) {
    forall c | c in camel :: c != ',' && c !in CLOSE && !IsSpace(c)
  }

  lemma {:induction false} NewItemIsClean(camel: string)
    requires IsName(camel)
    ensures Clean(ImportItem(camel)) && NoClose(ImportItem(camel))
  {
    var x := ImportItem(camel);
    assert x[0] == 'i' && x[|x| - 1] == ')';
    assert ']' !in x;
    forall i | 0 <= i < |x| ensures !OccursAt(x, CLOSE, i) {
      if OccursAt(x, CLOSE, i) {
        OccursChar(x, CLOSE, i, 0);
      }
    }
  }

  /** What is emitted holds the old items and then the new one, and nothing closes it early. */
  lemma {:induction false} EmittedGives(inside: string, camel: string)
    requires NoClose(inside) && IsName(camel)
    ensures Items(Emitted(inside, camel)) == Items(inside) + [ImportItem(camel)]
    ensures NoClose(Emitted(inside, camel))
  {
    var items := Items(inside) + [ImportItem(camel)];
    ItemsAreClean(inside);
    NewItemIsClean(camel);
    assert AllClean(items);
    ItemsOfJoined("", items);
    assert "" + Joined(items) == Joined(items);
    ItemsOfLines(items);
    NoCloseJoined(items);
    NoCloseLines(items);
  }

  // ---- parsing the edited text ------------------------------------------------------------------

  lemma {:induction false} InsideHasNoClose(s: string, b: Block)
    requires Match(s) == Some(b)
    ensures NoClose(Inside(s, b))
  {
    var from := b.start + |OPEN|;
    forall k | 0 <= k < b.close - from ensures !OccursAt(Inside(s, b), CLOSE, k) {
      if from + k + 3 <= b.close {
        OccursInSlice(s, from, b.close, CLOSE, from + k);
      }
    }
  }

  /** The opening is still first when only what follows it changes. */
  lemma {:induction false} OpenStaysFirst(s: string, t: string)
    requires IndexOf(s, OPEN, 0) >= 0
    requires |t| >= IndexOf(s, OPEN, 0) + |OPEN|
    requires t[..IndexOf(s, OPEN, 0) + |OPEN|] == s[..IndexOf(s, OPEN, 0) + |OPEN|]
    ensures IndexOf(t, OPEN, 0) == IndexOf(s, OPEN, 0)
  {
    var start := IndexOf(s, OPEN, 0);
    var n := start + |OPEN|;
    assert s[0..n] == s[..n] == t[..n] == t[0..n];
    forall k: nat | k <= start ensures OccursAt(t, OPEN, k) <==> OccursAt(s, OPEN, k) {
      OccursInSlice(t, 0, n, OPEN, k);
      OccursInSlice(s, 0, n, OPEN, k);
    }
    assert forall k | 0 <= k < start :: !OccursAt(s, OPEN, k);
    FirstIs(t, OPEN, 0, start);
  }

  /** The closing bracket is the first one when the text before it holds none. */
  lemma {:induction false} CloseIsFirst(head: string, inside: string, tail: string)
    requires NoClose(inside)
    ensures IndexOf(head + inside + CLOSE + tail, CLOSE, |head|) == |head| + |inside|
  {
    var s, n := head + inside + CLOSE + tail, |head| + |inside|;
    assert s[n..n + 3] == CLOSE;
    forall k | |head| <= k < n ensures !OccursAt(s, CLOSE, k) {
      if k + 3 <= n {
        OccursInSlice(s, |head|, n, CLOSE, k);
        assert s[|head|..n] == inside;
      } else if OccursAt(s, CLOSE, k) {
        OccursChar(s, CLOSE, k, n - k);
      }
    }
    FirstIs(s, CLOSE, |head|, n);
  }

  /** next parses to the same block as s with one more item, and is s outside the block. */
  ghost predicate Grown(s: string, next: string, camel: string) {
    && Match(s).Some? && Match(next).Some?
    && var b, c := Match(s).value, Match(next).value;
    && c.start == b.start && next[..c.start] == s[..b.start]
    && next[c.close + |CLOSE|..] == s[b.end..]
    && Inside(next, c) == Emitted(Inside(s, b), camel)
    && Items(Inside(next, c)) == Items(Inside(s, b)) + [ImportItem(camel)]
  }

  lemma {:induction false} EditReparses(s: string, camel: string)
    requires IsName(camel) && Edit(s, camel).Done?
    ensures Grown(s, Edit(s, camel).next, camel)
  {
    var b, next := Match(s).value, Edit(s, camel).next;
    var inside := Emitted(Inside(s, b), camel);
    var head, tail := s[..b.start] + OPEN, s[b.end..];
    EditIs(s, camel, b, head, inside, tail);
    InsideHasNoClose(s, b);
    EmittedGives(Inside(s, b), camel);
    MatchOf(s, b, head, inside, tail);
  }

  lemma {:induction false} EditIs(
    s: string, camel: string, b: Block, head: string, inside: string, tail: string)
    requires Match(s) == Some(b) && Edit(s, camel).Done? && inside == Emitted(Inside(s, b), camel)
    requires head == s[..b.start] + OPEN && tail == s[b.end..]
    ensures Edit(s, camel).next == head + inside + CLOSE + tail
  {
    RegroupedAround(s[..b.start], OPEN, inside, CLOSE, tail);
  }

  /** Where the edited text's block is found. */
  lemma {:induction false} MatchOf(s: string, b: Block, head: string, inside: string, tail: string)
    requires Match(s) == Some(b) && NoClose(inside) && head == s[..b.start] + OPEN
    ensures var next := head + inside + CLOSE + tail;
            && Match(next).Some?
            && var c := Match(next).value;
            && c.start == b.start && next[..c.start] == s[..b.start]
            && Inside(next, c) == inside && next[c.close + |CLOSE|..] == tail
  {
    var next := head + inside + CLOSE + tail;
    SliceOfParts(head, inside, CLOSE, tail);
    HeadStays(s, b.start, head, next);
    OpenStaysFirst(s, next);
    CloseIsFirst(head, inside, tail);
    MatchIs(next, b.start, |head| + |inside|);
  }

  lemma {:induction false} MatchIs(s: string, start: nat, close: nat)
    requires IndexOf(s, OPEN, 0) == start && IndexOf(s, CLOSE, start + |OPEN|) == close
    ensures Match(s).Some? && Match(s).value.start == start && Match(s).value.close == close
  {
  }

  lemma {:induction false} HeadStays(s: string, start: nat, head: string, next: string)
    requires start == IndexOf(s, OPEN, 0) && start + |OPEN| <= |s| && head == s[..start] + OPEN
    requires |head| <= |next| && next[..|head|] == head
    ensures s[..start + |OPEN|] == head && next[..start] == s[..start]
  {
    PrefixExtended(s, start, OPEN);
    assert next[..start] == next[..|head|][..start];
  }

  // ---- the form of the edited text --------------------------------------------------------------

  /** The items one after the other, a comma and a blank between them. */
  function InARow(items: seq<string>): string {
    if items == [] then ""
    else if |items| == 1 then items[0]
    else InARow(items[..|items| - 1]) + ", " + items[|items| - 1]
  }

  /** The items on a line each, ten blanks in, with a comma. */
  function InAColumn(items: seq<string>): string {
    if items == [] then "\n"
    else InAColumn(items[..|items| - 1]) + "          " + items[|items| - 1] + ",\n"
  }

  lemma {:induction false} JoinedAppended(items: seq<string>, last: string)
    requires items != []
    ensures Joined(items + [last]) == Joined(items) + ", " + last
  {
    if |items| == 1 {
      assert (items + [last])[1..] == [last];
      assert items[0] + "," + (" " + last) == items[0] + ", " + last;
    } else {
      assert (items + [last])[1..] == items[1..] + [last];
      JoinedAppended(items[1..], last);
      assert items[0] + "," + (" " + (Joined(items[1..]) + ", " + last)) ==
             items[0] + "," + (" " + Joined(items[1..])) + ", " + last;
    }
  }

  lemma {:induction false} JoinedIsInARow(items: seq<string>)
    ensures Joined(items) == InARow(items)
  {
    if |items| > 1 {
      JoinedIsInARow(items[..|items| - 1]);
      JoinedAppended(items[..|items| - 1], items[|items| - 1]);
      InitAndLast(items);
    }
  }

  lemma {:induction false} LinesAppended(items: seq<string>, last: string, before: string)
    requires Lines(items) == before + LAST_LINE
    ensures Lines(items + [last]) == before + INDENT + last + ",\n" + LAST_LINE
    decreases |items|
  {
    if items == [] {
      assert |before| == 1 && before == "\n" by {
        assert before + LAST_LINE == "\n" + LAST_LINE;
        assert (before + LAST_LINE)[..|before|] == before && ("\n" + LAST_LINE)[..1] == "\n";
      }
      assert [last][1..] == [];
      assert "\n" + INDENT + last + "," + ("\n" + LAST_LINE) == "\n" + INDENT + last + ",\n" + LAST_LINE;
      assert [] + [last] == [last];
    } else {
      var first := "\n" + INDENT + items[0] + ",";
      var rest := Lines(items[1..]);
      assert first + rest == before + LAST_LINE;
      LinesEnd(items[1..]);
      var inner := rest[..|rest| - |LAST_LINE|];
      assert rest == inner + LAST_LINE;
      assert before == first + inner by {
        assert (before + LAST_LINE)[..|before|] == before;
        assert (first + inner + LAST_LINE)[..|first + inner|] == first + inner;
        assert first + rest == first + inner + LAST_LINE;
      }
      LinesAppended(items[1..], last, inner);
      assert (items + [last])[1..] == items[1..] + [last];
    }
  }

  lemma {:induction false} LinesEnd(items: seq<string>)
    ensures |Lines(items)| >= |LAST_LINE|
    ensures Lines(items)[|Lines(items)| - |LAST_LINE|..] == LAST_LINE
  {
    if items != [] {
      LinesEnd(items[1..]);
    }
  }

  lemma {:induction false} LinesAreInAColumn(items: seq<string>)
    ensures Lines(items) == InAColumn(items) + "        "
  {
    if items != [] {
      var init, last := items[..|items| - 1], items[|items| - 1];
      LinesAreInAColumn(init);
      LinesAppended(init, last, InAColumn(init));
      InitAndLast(items);
    }
  }

  lemma {:induction false} SplitKeepsOut(s: string, c: char)
    requires c !in s
    ensures forall k | 0 <= k < |Split(s)| :: c !in Split(s)[k]
  {
    if s != "" {
      SplitKeepsOut(s[1..], c);
    }
  }

  lemma {:induction false} TrimKeepsOut(s: string, c: char)
    requires c !in s
    ensures c !in TrimStart(s) && c !in TrimEnd(s)
  {
    if s != "" {
      TrimKeepsOut(s[1..], c);
      TrimKeepsOut(s[..|s| - 1], c);
    }
  }

  lemma {:induction false} KeptKeepsOut(pieces: seq<string>, c: char)
    requires forall k | 0 <= k < |pieces| :: c !in pieces[k]
    ensures forall k | 0 <= k < |Kept(pieces)| :: c !in Kept(pieces)[k]
  {
    if pieces != [] {
      TrimKeepsOut(pieces[0], c);
      TrimKeepsOut(TrimStart(pieces[0]), c);
      KeptKeepsOut(pieces[1..], c);
    }
  }

  lemma {:induction false} JoinedKeepsOut(items: seq<string>, c: char)
    requires c != ',' && c != ' ' && forall k | 0 <= k < |items| :: c !in items[k]
    ensures c !in Joined(items)
  {
    if |items| > 1 {
      JoinedKeepsOut(items[1..], c);
    }
  }

  lemma {:induction false} LinesHaveABreak(items: seq<string>)
    ensures '\n' in Lines(items)
  {
    if items == [] {
      assert ("\n" + LAST_LINE)[0] == '\n';
    } else {
      assert Lines(items)[0] == '\n';
    }
  }

  lemma {:induction false} ImportItemReads(camel: string)
    ensures ImportItem(camel) == "import('./core/journeys/" + camel + "')"
  {
    assert "import('" + "./core/journeys/" == "import('./core/journeys/";
  }

  /** The edited block, as text: a block that was on one line and still fits into 120 characters stays
      on one line, and every other one has a line for each item; the new one is last. */
  lemma {:induction false} EditedBlockReads(s: string, camel: string)
    requires IsName(camel) && Edit(s, camel).Done?
    ensures Match(s).Some? && Match(Edit(s, camel).next).Some?
    ensures var before, next := Inside(s, Match(s).value), Edit(s, camel).next;
            var after := Inside(next, Match(next).value);
            var items := Imports(s) + ["import('./core/journeys/" + camel + "')"];
            && Imports(next) == items
            && (if '\n' !in before && |"await Promise.all([" + InARow(items) + "]);"| <= 120
                then after == InARow(items) else after == InAColumn(items) + "        ")
            && ('\n' !in after <==>
                  '\n' !in before && |"await Promise.all([" + InARow(items) + "]);"| <= 120)
  {
    EditReparses(s, camel);
    var before := Inside(s, Match(s).value);
    var items := Imports(s) + [ImportItem(camel)];
    ImportItemReads(camel);
    JoinedIsInARow(items);
    LinesAreInAColumn(items);
    LinesHaveABreak(items);
    if '\n' !in before {
      OneLineHasNoBreak(before, camel);
    }
  }

  lemma {:induction false} OneLineHasNoBreak(inside: string, camel: string)
    requires '\n' !in inside && IsName(camel)
    ensures '\n' !in Joined(Items(inside) + [ImportItem(camel)])
  {
    var items := Items(inside) + [ImportItem(camel)];
    SplitKeepsOut(inside, '\n');
    KeptKeepsOut(Split(inside), '\n');
    ImportHasNoBreak(camel);
    JoinedKeepsOut(items, '\n');
  }

  lemma {:induction false} ImportHasNoBreak(camel: string)
    requires IsName(camel)
    ensures '\n' !in ImportItem(camel)
  {
    assert '\n' !in "import('" && '\n' !in "./core/journeys/" && '\n' !in "')";
    assert '\n' !in camel by {
      assert IsSpace('\n');
    }
  }

  // ---- when an edit is refused ------------------------------------------------------------------

  lemma {:induction false} TrimStartIncludes(s: string, word: string)
    requires word != "" && !IsSpace(word[0])
    ensures Includes(TrimStart(s), word) <==> Includes(s, word)
  {
    if s != "" && IsSpace(s[0]) {
      TrimStartIncludes(s[1..], word);
      IncludesAfter(s[0], s[1..], word);
      assert s == [s[0]] + s[1..];
    }
  }

  lemma {:induction false} TrimEndIncludes(s: string, word: string)
    requires word != "" && !IsSpace(word[|word| - 1])
    ensures Includes(TrimEnd(s), word) <==> Includes(s, word)
  {
    if s != "" && IsSpace(s[|s| - 1]) {
      TrimEndIncludes(s[..|s| - 1], word);
      IncludesBefore(s[..|s| - 1], s[|s| - 1], word);
      InitAndLast(s);
    }
  }

  predicate Mentioned(items: seq<string>, word: string) {
    exists k | 0 <= k < |items| :: Includes(items[k], word)
  }

  predicate IsWord(word: string) {
    word != "" && ',' !in word && !IsSpace(word[0]) && !IsSpace(word[|word| - 1])
  }

  lemma {:induction false} MentionedAppended(a: seq<string>, b: seq<string>, word: string)
    ensures Mentioned(a + b, word) <==> Mentioned(a, word) || Mentioned(b, word)
  {
    if k :| 0 <= k < |a| && Includes(a[k], word) {
      assert (a + b)[k] == a[k];
    }
    if k :| 0 <= k < |b| && Includes(b[k], word) {
      assert (a + b)[|a| + k] == b[k];
    }
  }

  /** The inside of the block mentions a word exactly when one of its items does. */
  lemma {:induction false} IncludesIffMentioned(inside: string, word: string)
    requires IsWord(word)
    ensures Includes(inside, word) <==> Mentioned(Items(inside), word)
    decreases |inside|
  {
    if i :| 0 <= i < |inside| && inside[i] == ',' {
      var a, b := inside[..i], inside[i + 1..];
      assert inside == a + "," + b;
      IncludesAcross(a, ',', b, word);
      ItemsAt(a, b);
      IncludesIffMentioned(a, word);
      IncludesIffMentioned(b, word);
      MentionedAppended(Items(a), Items(b), word);
    } else {
      PieceMentions(inside, word);
    }
  }

  lemma {:induction false} PieceMentions(x: string, word: string)
    requires IsWord(word) && ',' !in x
    ensures Includes(x, word) <==> Mentioned(Items(x), word)
  {
    SplitWithoutComma(x);
    TrimStartIncludes(x, word);
    TrimEndIncludes(TrimStart(x), word);
    assert Kept([x][1..]) == [];
    if Trim(x) != "" {
      assert Items(x) == [Trim(x)];
      if Mentioned([Trim(x)], word) {
        assert Includes(Trim(x), word);
      }
      assert Includes(Trim(x), word) ==> Includes([Trim(x)][0], word);
    }
  }

  lemma {:induction false} PathIsWord(camel: string)
    requires IsName(camel)
    ensures IsWord(ImportPath(camel))
  {
    var path := ImportPath(camel);
    assert path[0] == '.';
    assert camel == "" ==> path[|path| - 1] == '/';
    assert camel != "" ==> path[|path| - 1] == camel[|camel| - 1];
  }

  /** An edit is accepted exactly when there is a block and none of its items mentions the path. */
  lemma {:induction false} EditAcceptedIff(s: string, camel: string)
    requires IsName(camel)
    ensures Edit(s, camel).Done? <==>
              Match(s).Some? && !Mentioned(Imports(s), ImportPath(camel))
  {
    PathIsWord(camel);
    if Match(s).Some? {
      IncludesIffMentioned(Inside(s, Match(s).value), ImportPath(camel));
    }
  }

  lemma {:induction false} LongerItemMentions(camel: string, more: string)
    ensures Includes(ImportItem(camel + more), ImportPath(camel))
  {
    OccursWithin("import('", ImportPath(camel), more + "')", ImportPath(camel), 0);
    assert "import('" + ImportPath(camel) + (more + "')") == ImportItem(camel + more);
  }

  /** After an edit the same name is refused, and so is every name it starts with, imported or not. */
  lemma {:induction false} RefusedAfterwards(s: string, camel: string, more: string)
    requires IsName(camel + more) && Edit(s, camel + more).Done?
    ensures Edit(Edit(s, camel + more).next, camel) == AlreadyImported
  {
    var next := Edit(s, camel + more).next;
    assert forall c | c in camel :: c in camel + more;
    EditReparses(s, camel + more);
    EditAcceptedIff(next, camel);
    LongerItemMentions(camel, more);
    var were := Imports(s);
    assert Imports(next)[|were|] == ImportItem(camel + more);
  }

  /** The refusal of a name that is not imported: no item is its import, since quotes follow a path. */
  lemma {:induction false} RefusedThoughNotImported(s: string, camel: string, more: string)
    requires IsName(camel + more) && more != "" && Edit(s, camel + more).Done?
    requires ImportItem(camel) !in Imports(s)
    ensures var next := Edit(s, camel + more).next;
            && Match(next).Some?
            && ImportItem(camel) !in Imports(next)
            && Edit(next, camel) == AlreadyImported
  {
    RefusedAfterwards(s, camel, more);
    EditReparses(s, camel + more);
    assert |ImportItem(camel + more)| != |ImportItem(camel)|;
  }

  /** One edit after another. */
  function EditAll(s: string, names: seq<string>): Outcome {
    if names == [] then Done(s)
    else
      match EditAll(s, names[..|names| - 1])
      case Done(next) => Edit(next, names[|names| - 1])
      case refused => refused
  }

  function ImportItems(names: seq<string>): seq<string> {
    if names == [] then [] else ImportItems(names[..|names| - 1]) + [ImportItem(names[|names| - 1])]
  }

  /** next lists the imports of s and then those of the names. */
  predicate Lists(s: string, next: string, names: seq<string>) {
    Match(s).Some? && Match(next).Some? && Imports(next) == Imports(s) + ImportItems(names)
  }

  lemma {:induction false} OneMoreListed(s: string, next: string, names: seq<string>, camel: string)
    requires Lists(s, next, names) && IsName(camel) && Edit(next, camel).Done?
    ensures Lists(s, Edit(next, camel).next, names + [camel])
  {
    EditReparses(next, camel);
    assert (names + [camel])[..|names|] == names;
    Regrouped(Imports(s), ImportItems(names), [ImportItem(camel)]);
  }

  /** Names added one after the other are listed after the old items, in that order. */
  lemma {:induction false} EditsAddUp(s: string, names: seq<string>)
    requires Match(s).Some? && EditAll(s, names).Done?
    requires forall k | 0 <= k < |names| :: IsName(names[k])
    ensures Lists(s, EditAll(s, names).next, names)
  {
    if names != [] {
      var init := names[..|names| - 1];
      EditsAddUp(s, init);
      OneMoreListed(s, EditAll(s, init).next, init, names[|names| - 1]);
      InitAndLast(names);
    }
  }

  /** Where the match ends: after the closing bracket, or, if a comment with "journey" follows, after
      the last "journey" of its line. The rest of that line then stands outside any comment. */
  lemma {:induction false} MatchEndsAtJourney(s: string, i: nat)
    requires Match(s).Some? && i == Match(s).value.close + |CLOSE|
    ensures Match(s).value.end != i ==> IsCommentEnd(s, i, Match(s).value.end)
    ensures forall e: nat | IsCommentEnd(s, i, e) :: e <= Match(s).value.end
  {
    CommentEndIsLast(s, i);
    assert Match(s).value.end == match CommentEnd(s, i) case Some(e) => e case None => i;
  }

  // ---- what is left of a comment ----------------------------------------------------------------

  /** The text goes on, on its first line, with something that is neither blank nor a comment. A block
      comment counts as one also when it does not end on that line. */
  predicate CodeFirst(rest: string)
    decreases |rest|
  {
    && rest != "" && rest[0] != '\n'
    && if IsSpace(rest[0]) then CodeFirst(rest[1..])
       else if StartsWith(rest, "/*") then
         var end := IndexOf(rest, "*/", 2);
         end != -1 && '\n' !in rest[..end] && CodeFirst(rest[end + 2..])
       else !StartsWith(rest, "//")
  }

  lemma {:induction false} BlanksAreNoCode(blanks: string, rest: string)
    requires AllSpace(blanks) && '\n' !in blanks
    ensures CodeFirst(blanks + rest) <==> CodeFirst(rest)
  {
    if blanks == "" {
      assert blanks + rest == rest;
    } else {
      assert (blanks + rest)[1..] == blanks[1..] + rest;
      BlanksAreNoCode(blanks[1..], rest);
    }
  }

  lemma {:induction false} BlockCommentIsNoCode(remark: string, rest: string)
    requires '*' !in remark && '\n' !in remark
    ensures CodeFirst("/*" + remark + "*/" + rest) <==> CodeFirst(rest)
  {
    var s, end := "/*" + remark + "*/" + rest, 2 + |remark|;
    assert s[0..2] == "/*" && s[end..end + 2] == "*/" && s[end + 2..] == rest;
    assert forall k | 2 <= k < end :: s[k] == remark[k - 2];
    forall k | 2 <= k < end ensures !OccursAt(s, "*/", k) {
      if OccursAt(s, "*/", k) {
        OccursChar(s, "*/", k, 0);
      }
    }
    FirstIs(s, "*/", 2, end);
    assert s[..end] == "/*" + remark;
  }

  lemma {:induction false} LineCommentIsNoCode(remark: string)
    ensures !CodeFirst("//" + remark)
  {
    assert ("//" + remark)[0..2] == "//" && "/*"[1] == '*';
    assert ("//" + remark)[1] == '/';
  }

  /** Which text that is: blanks and one-line block comments do not matter, the end of the line and a
      line comment are no code, and any other character is. */
  lemma {:induction false} CodeIs(blanks: string, remark: string, rest: string)
    requires AllSpace(blanks) && '\n' !in blanks && '*' !in remark && '\n' !in remark
    ensures CodeFirst(blanks + rest) <==> CodeFirst(rest)
    ensures CodeFirst("/*" + remark + "*/" + rest) <==> CodeFirst(rest)
    ensures !CodeFirst("//" + remark)
    ensures rest == "" || rest[0] == '\n' ==> !CodeFirst(rest)
    ensures rest != "" && !IsSpace(rest[0]) && rest[0] != '/' ==> CodeFirst(rest)
  {
    BlanksAreNoCode(blanks, rest);
    BlockCommentIsNoCode(remark, rest);
    LineCommentIsNoCode(remark);
    if rest != "" && rest[0] != '/' {
      assert rest[0..1] == [rest[0]];
      if StartsWith(rest, "/*") {
        OccursChar(rest, "/*", 0, 0);
      }
      if StartsWith(rest, "//") {
        OccursChar(rest, "//", 0, 0);
      }
    }
  }

  ghost predicate IsLastCommentEnd(s: string, i: nat, e: nat) {
    IsCommentEnd(s, i, e) && forall f: nat | IsCommentEnd(s, i, f) :: f <= e
  }

  lemma {:induction false} LastCommentEndIs(s: string, i: nat)
    requires Match(s).Some? && i == Match(s).value.close + |CLOSE|
    ensures var end := Match(s).value.end;
            && (end != i <==> IsLastCommentEnd(s, i, end))
            && (forall e: nat | IsLastCommentEnd(s, i, e) :: e == end && end != i)
  {
    MatchEndsAtJourney(s, i);
    forall e: nat | IsCommentEnd(s, i, e) ensures e > i {
    }
  }

  /** Some comment follows the bracket at i and goes on, after its last "journey", with something that
      is neither blank nor a comment of its own. */
  ghost predicate GoesOn(s: string, i: nat) {
    exists e: nat | e <= |s| :: IsLastCommentEnd(s, i, e) && CodeFirst(s[e..])
  }

  /** An edit turns text of a comment into code exactly when such a comment follows the closing
      bracket. */
  lemma {:induction false} CommentTextBecomesCodeIff(s: string, camel: string, i: nat)
    requires IsName(camel) && Edit(s, camel).Done? && i == Match(s).value.close + |CLOSE|
    ensures var b, next := Match(s).value, Edit(s, camel).next;
            && Match(next).Some?
            && (b.end != i && CodeFirst(next[Match(next).value.close + |CLOSE|..]) <==> GoesOn(s, i))
  {
    EditReparses(s, camel);
    GoesOnIff(s, i);
  }

  lemma {:induction false} GoesOnIff(s: string, i: nat)
    requires Match(s).Some? && i == Match(s).value.close + |CLOSE|
    ensures GoesOn(s, i) <==> Match(s).value.end != i && CodeFirst(s[Match(s).value.end..])
  {
    LastCommentEndIs(s, i);
  }

  function Remark(words: string, rest: string): string {
    " " + "//" + words + "journey" + rest
  }

  /** For instance: after a block followed by such a comment, the edit leaves the comment's rest
      standing after the statement, as " modules" of "// load journey modules". */
  lemma {:induction false} RestOfRemarkIsLeft(inside: string, camel: string, words: string, rest: string)
    requires NoClose(inside) && IsName(camel) && !Includes(inside, ImportPath(camel))
    requires '\n' !in words && 'j' !in rest
    ensures Edit(OPEN + inside + CLOSE + Remark(words, rest), camel) ==
            Done(OPEN + Emitted(inside, camel) + CLOSE + rest)
  {
    var s := OPEN + inside + CLOSE + Remark(words, rest);
    var b := Block(0, |OPEN| + |inside|, |OPEN| + |inside| + |CLOSE| + 10 + |words|);
    MatchOfRemark(inside, words, rest, b);
    RemarkParts(inside, words, rest);
    EditOf(s, camel, b);
    EmptyBefore(OPEN + Emitted(inside, camel) + CLOSE, rest);
  }

  lemma {:induction false} EmptyBefore(block: string, rest: string)
    ensures "" + block + rest == block + rest
  {
    assert "" + block == block;
  }

  lemma {:induction false} MatchOfRemark(inside: string, words: string, rest: string, b: Block)
    requires NoClose(inside) && '\n' !in words && 'j' !in rest
    requires b == Block(0, |OPEN| + |inside|, |OPEN| + |inside| + |CLOSE| + 10 + |words|)
    ensures Match(OPEN + inside + CLOSE + Remark(words, rest)) == Some(b)
  {
    RemarkEnds(OPEN + inside + CLOSE, words, rest);
    MatchOfCommented(inside, Remark(words, rest), b.end);
  }

  lemma {:induction false} MatchOfCommented(inside: string, comment: string, end: nat)
    requires NoClose(inside)
    requires CommentEnd(OPEN + inside + CLOSE + comment, |OPEN + inside + CLOSE|) == Some(end)
    ensures Match(OPEN + inside + CLOSE + comment) == Some(Block(0, |OPEN| + |inside|, end))
  {
    OpenIsFirst(inside, comment);
    CloseIsFirst(OPEN, inside, comment);
    MatchFrom(OPEN + inside + CLOSE + comment, |OPEN| + |inside|, end);
  }

  lemma {:induction false} MatchFrom(s: string, close: nat, end: nat)
    requires IndexOf(s, OPEN, 0) == 0 && IndexOf(s, CLOSE, |OPEN|) == close
    requires close + |CLOSE| <= |s| && CommentEnd(s, close + |CLOSE|) == Some(end)
    ensures Match(s) == Some(Block(0, close, end))
  {
  }

  lemma {:induction false} ModulesIsCode()
    ensures Remark(" load ", " modules") == " // load journey modules"
    ensures CodeFirst(" modules")
  {
    assert CodeFirst("modules") && " modules"[1..] == "modules";
  }

  lemma {:induction false} RemarkParts(inside: string, words: string, rest: string)
    ensures var s := OPEN + inside + CLOSE + Remark(words, rest);
            && s[|OPEN|..|OPEN| + |inside|] == inside
            && s[|OPEN| + |inside| + |CLOSE| + 10 + |words|..] == rest
            && s[..0] == ""
  {
    var head := OPEN + inside + CLOSE;
    SliceOfParts(OPEN, inside, CLOSE, Remark(words, rest));
    assert (" " + "//" + words + "journey" + rest)[10 + |words|..] == rest;
    assert (head + Remark(words, rest))[|head| + 10 + |words|..] == Remark(words, rest)[10 + |words|..];
  }

  lemma {:induction false} EditOf(s: string, camel: string, b: Block)
    requires Match(s) == Some(b) && !Includes(Inside(s, b), ImportPath(camel))
    ensures Edit(s, camel) ==
            Done(s[..b.start] + (OPEN + Emitted(Inside(s, b), camel) + CLOSE) + s[b.end..])
  {
  }

  lemma {:induction false} OpenIsFirst(inside: string, remark: string)
    ensures IndexOf(OPEN + inside + CLOSE + remark, OPEN, 0) == 0
  {
    var s := OPEN + inside + CLOSE + remark;
    assert s[0..|OPEN|] == OPEN;
    FirstIs(s, OPEN, 0, 0);
  }

  /** A remark's characters. */
  lemma {:induction false} RemarkChars(head: string, words: string, rest: string)
    ensures var s, i := head + Remark(words, rest), |head|;
            && s[i] == ' ' && s[i + 1] == '/'
            && OccursAt(s, "//", i + 1) && OccursAt(s, "journey", i + 3 + |words|)
            && s[i + 3..i + 10 + |words|] == words + "journey"
            && s[i + 10 + |words|..] == rest
  {
    var s, i := head + Remark(words, rest), |head|;
    assert s == (head + " ") + "//" + (words + "journey" + rest);
    assert s == (head + " " + "//") + (words + "journey") + rest;
    assert s == (head + " " + "//" + words) + "journey" + rest;
    OccursWithin(head + " ", "//", words + "journey" + rest, "//", 0);
    OccursWithin(head + " " + "//" + words, "journey", rest, "journey", 0);
    assert "//"[0..2] == "//" && "journey"[0..7] == "journey";
  }

  lemma {:induction false} RemarkEnds(head: string, words: string, rest: string)
    requires '\n' !in words && 'j' !in rest
    ensures CommentEnd(head + Remark(words, rest), |head|) == Some(|head| + 10 + |words|)
  {
    var s, i, end := head + Remark(words, rest), |head|, |head| + 10 + |words|;
    RemarkChars(head, words, rest);
    assert '\n' !in "journey";
    assert EndsJourney(s, i + 3, end);
    CommentEndAt(s, i, end);
  }

  /** One blank, two slashes, and a "journey" that is the last of the text. */
  lemma {:induction false} CommentEndAt(s: string, i: nat, end: nat)
    requires i + 3 <= |s| && s[i] == ' ' && s[i + 1] == '/' && OccursAt(s, "//", i + 1)
    requires EndsJourney(s, i + 3, end) && 'j' !in s[end..]
    ensures CommentEnd(s, i) == Some(end)
  {
    assert SkipSpaces(s, i + 1) == i + 1 && SkipSpaces(s, i) == i + 1;
    LastJourneyIsLast(s, i + 3);
    NoLaterJourney(s, end, LastJourney(s, i + 3).value);
  }

  lemma {:induction false} NoLaterJourney(s: string, end: nat, e: nat)
    requires 7 <= end <= e <= |s| && OccursAt(s, "journey", end - 7) && OccursAt(s, "journey", e - 7)
    requires 'j' !in s[end..]
    ensures e == end
  {
    OccursChar(s, "journey", e - 7, 0);
    if e - 7 >= end {
      assert false;
    } else if e > end {
      JourneyChars(e - end);
    }
  }

  lemma {:induction false} JourneyChars(k: nat)
    requires 0 < k < 7
    ensures "journey"[k] != 'j'
  {
  }
}
