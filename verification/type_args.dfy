/** Splitting the type arguments of `Head<A, B<C, D>, ...>` (src/collectors/tick_fetch.rs,
    `parse_top_level_generic_args`). */
module TypeArgs {
  import opened Models

  datatype ParseError = MissingBracket | TooFew(expected: nat, found: nat)

  /** Unicode white space, as `str::trim` knows it. */
  predicate IsSpace(c: char) {
    || '\U{9}' <= c <= '\U{d}' || c == ' ' || c == '\U{85}' || c == '\U{a0}' || c == '\U{1680}'
    || '\U{2000}' <= c <= '\U{200a}' || c == '\U{2028}' || c == '\U{2029}' || c == '\U{202f}'
    || c == '\U{205f}' || c == '\U{3000}'
  }

  function TrimStart(s: string): string {
    if s != "" && IsSpace(s[0]) then TrimStart(s[1..]) else s
  }

  function TrimEnd(s: string): string {
    if s != "" && IsSpace(s[|s| - 1]) then TrimEnd(s[..|s| - 1]) else s
  }

  function Trim(s: string): string {
    TrimEnd(TrimStart(s))
  }

  /** What the scan knows after some characters behind the first bracket. */
  datatype Scan = Scan(args: seq<string>, depth: nat, current: string, done: bool)

  const START: Scan := Scan([], 0, "", false)

  function Push(args: seq<string>, current: string): seq<string> {
    if Trim(current) == "" then args else args + [Trim(current)]
  }

  function Next(s: Scan, c: char): Scan {
    if s.done then s
    else if c == '<' then s.(depth := s.depth + 1, current := s.current + [c])
    else if c == '>' then
      if s.depth == 0 then s.(args := Push(s.args, s.current), done := true)
      else s.(depth := s.depth - 1, current := s.current + [c])
    else if c == ',' && s.depth == 0 then s.(args := Push(s.args, s.current), current := "")
    else s.(current := s.current + [c])
  }

  function After(text: string): Scan {
    if text == "" then START else Next(After(text[..|text| - 1]), text[|text| - 1])
  }

  function Find(s: string, c: char): (r: Option<nat>)
    ensures r.Some? ==> r.value < |s| && s[r.value] == c && c !in s[..r.value]
    ensures r.None? ==> c !in s
  {
    if s == "" then None
    else if s[0] == c then Some(0)
    else
      var rest := Find(s[1..], c);
      if rest.Some? then
        assert s[..rest.value + 1] == [s[0]] + s[1..][..rest.value];
        Some(rest.value + 1)
      else
        assert s == [s[0]] + s[1..];
        None
  }

  function Parsed(text: string, expected: nat): Models.Result<seq<string>, ParseError> {
    match Find(text, '<')
    case None => Err(MissingBracket)
    case Some(start) =>
      var args := After(text[start + 1..]).args;
      if |args| < expected then Err(TooFew(expected, |args|)) else Ok(args)
  }

  method ParseTopLevelGenericArgs(text: string, expected: nat) returns (r: Models.Result<seq<string>, ParseError>)
    ensures r == Parsed(text, expected)
  {
    var found := Find(text, '<');
    if found.None? {
      return Err(MissingBracket);
    }
    var rest := text[found.value + 1..];
    var args: seq<string> := [];
    var depth: nat, current := 0, "";
    var i := 0;
    while i < |rest|
      invariant i <= |rest| && After(rest[..i]) == Scan(args, depth, current, false)
    {
      assert rest[..i + 1][..i] == rest[..i] && rest[..i + 1][i] == rest[i];
      var ch := rest[i];
      if ch == '<' {
        depth := depth + 1;
        current := current + [ch];
      } else if ch == '>' {
        if depth == 0 {
          if Trim(current) != "" {
            args := args + [Trim(current)];
          }
          break;
        }
        depth := depth - 1;
        current := current + [ch];
      } else if ch == ',' && depth == 0 {
        if Trim(current) != "" {
          args := args + [Trim(current)];
        }
        current := "";
      } else {
        current := current + [ch];
      }
      i := i + 1;
    }
    if i < |rest| {
      assert rest[..i + 1][..i] == rest[..i] && rest[..i + 1][i] == rest[i];
      DoneStays(rest[..i + 1], rest[i + 1..]);
      assert rest == rest[..i + 1] + rest[i + 1..];
    } else {
      assert rest[..i] == rest;
    }
    if |args| < expected {
      return Err(TooFew(expected, |args|));
    }
    return Ok(args);
  }

  lemma {:induction false} DoneStays(text: string, more: string)
    requires After(text).done
    ensures After(text + more) == After(text)
  {
    if more == "" {
      assert text + more == text;
    } else {
      var all := text + more;
      assert all[..|all| - 1] == text + more[..|more| - 1];
      DoneStays(text, more[..|more| - 1]);
    }
  }

  // ----- well-formed arguments

  /** Bracket depth after `s`, starting at depth `d`; `None` if it closes too much or has a comma at depth 0. */
  function Nest(s: string, d: nat): Option<nat> {
    if s == "" then Some(d)
    else
      match Nest(s[..|s| - 1], d)
      case None => None
      case Some(n) => NestChar(n, s[|s| - 1])
  }

  function NestChar(n: nat, c: char): Option<nat> {
    if c == '<' then Some(n + 1)
    else if c == '>' then if n == 0 then None else Some(n - 1)
    else if c == ',' && n == 0 then None
    else Some(n)
  }

  /** A non-empty argument without surrounding white space, balanced, with commas only inside brackets. */
  predicate WellFormed(a: string) {
    a != "" && !IsSpace(a[0]) && !IsSpace(a[|a| - 1]) && Nest(a, 0) == Some(0)
  }

  lemma NestAppend(s: string, c: char, d: nat)
    ensures Nest(s + [c], d) == match Nest(s, d) case None => None case Some(n) => NestChar(n, c)
  {
    assert (s + [c])[..|s|] == s;
  }

  lemma AfterAppend(s: string, c: char)
    ensures After(s + [c]) == Next(After(s), c)
  {
    assert (s + [c])[..|s|] == s;
  }

  predicate Blank(s: string) {
    forall i :: 0 <= i < |s| ==> IsSpace(s[i])
  }

  lemma {:induction false} NestConcat(a: string, b: string, d: nat)
    ensures Nest(a + b, d) == match Nest(a, d) case None => None case Some(n) => Nest(b, n)
  {
    if b == "" {
      assert a + b == a;
    } else {
      assert (a + b)[..|a + b| - 1] == a + b[..|b| - 1];
      NestConcat(a, b[..|b| - 1], d);
    }
  }

  lemma {:induction false} NestBlank(s: string, d: nat)
    requires Blank(s)
    ensures Nest(s, d) == Some(d)
  {
    if s != "" {
      NestBlank(s[..|s| - 1], d);
      assert IsSpace(s[|s| - 1]);
    }
  }

  // ----- trimming

  lemma {:induction false} TrimStartSplits(s: string) returns (left: string)
    ensures Blank(left) && s == left + TrimStart(s)
    ensures TrimStart(s) == "" || !IsSpace(TrimStart(s)[0])
  {
    left := "";
    if s != "" && IsSpace(s[0]) {
      var rest := TrimStartSplits(s[1..]);
      left := [s[0]] + rest;
    }
  }

  lemma {:induction false} TrimEndSplits(s: string) returns (right: string)
    ensures Blank(right) && s == TrimEnd(s) + right
    ensures TrimEnd(s) == "" || !IsSpace(TrimEnd(s)[|TrimEnd(s)| - 1])
  {
    right := "";
    if s != "" && IsSpace(s[|s| - 1]) {
      var rest := TrimEndSplits(s[..|s| - 1]);
      right := rest + [s[|s| - 1]];
      assert s == s[..|s| - 1] + [s[|s| - 1]];
    }
  }

  lemma {:induction false} TrimStartBlank(left: string, s: string)
    requires Blank(left) && (s == "" || !IsSpace(s[0]))
    ensures TrimStart(left + s) == s
  {
    if left == "" {
      assert left + s == s;
    } else {
      assert IsSpace(left[0]) && (left + s)[1..] == left[1..] + s;
      TrimStartBlank(left[1..], s);
    }
  }

  lemma {:induction false} TrimEndBlank(s: string, right: string)
    requires Blank(right) && (s == "" || !IsSpace(s[|s| - 1]))
    ensures TrimEnd(s + right) == s
  {
    if right == "" {
      assert s + right == s;
    } else {
      var all := s + right;
      assert IsSpace(right[|right| - 1]) && all[..|all| - 1] == s + right[..|right| - 1];
      TrimEndBlank(s, right[..|right| - 1]);
    }
  }

  /** Trimming a balanced piece leaves nothing or a well-formed argument. */
  lemma TrimKeepsNesting(s: string)
    requires Nest(s, 0) == Some(0)
    ensures Trim(s) == "" || WellFormed(Trim(s))
  {
    var left := TrimStartSplits(s);
    var middle := TrimStart(s);
    var right := TrimEndSplits(middle);
    NestConcat(left, middle, 0);
    NestBlank(left, 0);
    NestConcat(Trim(s), right, 0);
    if Nest(Trim(s), 0).Some? {
      NestBlank(right, Nest(Trim(s), 0).value);
    }
    if Trim(s) != "" {
      assert Trim(s)[0] == middle[0];
    }
  }

  // ----- whatever is returned is well formed

  ghost predicate ScanSound(s: Scan) {
    Nest(s.current, 0) == Some(s.depth) && AllWellFormed(s.args)
  }

  ghost predicate AllWellFormed(args: seq<string>) {
    forall i :: 0 <= i < |args| ==> WellFormed(args[i])
  }

  lemma PushSound(args: seq<string>, current: string)
    requires AllWellFormed(args) && Nest(current, 0) == Some(0)
    ensures AllWellFormed(Push(args, current))
  {
    TrimKeepsNesting(current);
  }

  /** The character ends the current argument. */
  predicate Ends(s: Scan, c: char) {
    s.depth == 0 && (c == '>' || c == ',')
  }

  lemma NextSound(s: Scan, c: char)
    requires ScanSound(s)
    ensures ScanSound(Next(s, c))
  {
    if Ends(s, c) {
      EndSound(s, c);
    } else if !s.done {
      NestAppend(s.current, c, 0);
      NextCollects(s, c);
    }
  }

  lemma EndSound(s: Scan, c: char)
    requires ScanSound(s) && Ends(s, c)
    ensures ScanSound(Next(s, c))
  {
    var pushed := Push(s.args, s.current);
    PushSound(s.args, s.current);
    assert Next(s, c) == s
      || Next(s, c) == Scan(pushed, 0, s.current, true) || Next(s, c) == Scan(pushed, 0, "", false);
  }

  lemma {:induction false} AfterSound(text: string)
    ensures ScanSound(After(text))
  {
    if text != "" {
      AfterSound(text[..|text| - 1]);
      NextSound(After(text[..|text| - 1]), text[|text| - 1]);
    }
  }

  /** Every argument of every accepted text is trimmed, non-empty and balanced. */
  lemma ParsedAreWellFormed(text: string, expected: nat)
    ensures var r := Parsed(text, expected);
      r.Ok? ==> |r.value| >= expected && AllWellFormed(r.value)
  {
    if Find(text, '<').Some? {
      AfterSound(text[Find(text, '<').value + 1..]);
    }
  }

  // ----- and every list of well-formed arguments is found again

  /** An argument as printed, with white space around it. */
  datatype Piece = Piece(left: string, arg: string, right: string)
  {
    function Text(): string {
      left + arg + right
    }

    predicate Valid() {
      Blank(left) && Blank(right) && WellFormed(arg)
    }
  }

  function Joined(pieces: seq<Piece>): string {
    if pieces == [] then ""
    else if |pieces| == 1 then pieces[0].Text()
    else Joined(pieces[..|pieces| - 1]) + "," + pieces[|pieces| - 1].Text()
  }

  function ArgsOf(pieces: seq<Piece>): (args: seq<string>)
    ensures |args| == |pieces|
  {
    seq(|pieces|, i requires 0 <= i < |pieces| => pieces[i].arg)
  }

  /** Between arguments: nothing collected, no bracket open. */
  predicate Fresh(s: Scan) {
    !s.done && s.depth == 0 && s.current == ""
  }

  lemma NextCollects(s: Scan, c: char)
    requires !s.done && NestChar(s.depth, c).Some?
    ensures Next(s, c) == Scan(s.args, NestChar(s.depth, c).value, s.current + [c], false)
  {
  }

  /** Scanning a text that stays within one argument only collects it. */
  lemma {:induction false} Collects(before: string, text: string, start: Scan)
    requires After(before) == start && Fresh(start) && Nest(text, 0).Some?
    ensures After(before + text) == Scan(start.args, Nest(text, 0).value, text, false)
    decreases |text|
  {
    if text == "" {
      assert before + text == before;
    } else {
      var front, c := text[..|text| - 1], text[|text| - 1];
      assert text == front + [c];
      assert before + text == (before + front) + [c];
      NestAppend(front, c, 0);
      Collects(before, front, start);
      AfterAppend(before + front, c);
      NextCollects(After(before + front), c);
    }
  }

  lemma PieceTrims(p: Piece)
    requires p.Valid()
    ensures Nest(p.Text(), 0) == Some(0) && Trim(p.Text()) == p.arg
  {
    assert p.Text() == p.left + (p.arg + p.right);
    NestBlank(p.left, 0);
    NestBlank(p.right, 0);
    NestConcat(p.arg, p.right, 0);
    NestConcat(p.left, p.arg + p.right, 0);
    TrimStartBlank(p.left, p.arg + p.right);
    TrimEndBlank(p.arg, p.right);
  }

  lemma {:induction false} JoinedScans(pieces: seq<Piece>)
    requires pieces != [] && forall i :: 0 <= i < |pieces| ==> pieces[i].Valid()
    ensures After(Joined(pieces)) == Scan(ArgsOf(pieces[..|pieces| - 1]), 0, pieces[|pieces| - 1].Text(), false)
  {
    var front, last := pieces[..|pieces| - 1], pieces[|pieces| - 1];
    PieceTrims(last);
    if front == [] {
      Collects("", last.Text(), START);
      assert "" + last.Text() == last.Text();
    } else {
      JoinedScans(front);
      var comma := Joined(front) + ",";
      Separated(front, ',');
      Collects(comma, last.Text(), After(comma));
    }
  }

  /** A comma or the closing bracket behind some arguments finishes the last of them. */
  lemma Separated(pieces: seq<Piece>, c: char)
    requires pieces != [] && pieces[|pieces| - 1].Valid() && (c == ',' || c == '>')
    requires After(Joined(pieces)) == Scan(ArgsOf(pieces[..|pieces| - 1]), 0, pieces[|pieces| - 1].Text(), false)
    ensures var s := After(Joined(pieces) + [c]);
      s.args == ArgsOf(pieces) && s.depth == 0 && s.done == (c == '>') && (c == ',' ==> s.current == "")
  {
    AfterAppend(Joined(pieces), c);
    FinishArg(After(Joined(pieces)), c, pieces[|pieces| - 1]);
    ArgsOfLast(pieces);
  }

  lemma FinishArg(s: Scan, c: char, p: Piece)
    requires !s.done && s.depth == 0 && s.current == p.Text() && p.Valid() && (c == ',' || c == '>')
    ensures var s' := Next(s, c);
      s'.args == s.args + [p.arg] && s'.depth == 0 && s'.done == (c == '>') && (c == ',' ==> s'.current == "")
  {
    PieceTrims(p);
  }

  lemma ArgsOfLast(pieces: seq<Piece>)
    requires pieces != []
    ensures ArgsOf(pieces) == ArgsOf(pieces[..|pieces| - 1]) + [pieces[|pieces| - 1].arg]
  {
  }

  lemma ClosedScans(pieces: seq<Piece>)
    requires forall i :: 0 <= i < |pieces| ==> pieces[i].Valid()
    ensures After(Joined(pieces) + ">").done && After(Joined(pieces) + ">").args == ArgsOf(pieces)
  {
    if pieces == [] {
      assert "" + ">" == ">";
      AfterAppend("", '>');
      assert Trim("") == "";
    } else {
      JoinedScans(pieces);
      Separated(pieces, '>');
    }
  }

  /** Printing `head<a, b, ...>` with any white space around the arguments and anything behind it, and
      parsing it again, gives back the arguments, or counts how many there were. */
  lemma RoundTrip(head: string, pieces: seq<Piece>, tail: string, expected: nat)
    requires '<' !in head && forall i :: 0 <= i < |pieces| ==> pieces[i].Valid()
    ensures Parsed(head + ("<" + (Joined(pieces) + ">" + tail)), expected)
            == if |pieces| < expected then Err(TooFew(expected, |pieces|)) else Ok(ArgsOf(pieces))
  {
    var closed := Joined(pieces) + ">";
    ClosedScans(pieces);
    DoneStays(closed, tail);
    ParsedBehind(head, closed + tail, expected);
  }

  lemma ParsedBehind(head: string, inside: string, expected: nat)
    requires '<' !in head
    ensures Parsed(head + ("<" + inside), expected)
            == if |After(inside).args| < expected then Err(TooFew(expected, |After(inside).args|))
               else Ok(After(inside).args)
  {
    var text := head + ("<" + inside);
    FindFirst(head, "<" + inside);
    assert text[|head| + 1..] == inside;
  }

  lemma {:induction false} FindFirst(head: string, rest: string)
    requires '<' !in head && rest != "" && rest[0] == '<'
    ensures Find(head + rest, '<') == Some(|head|)
  {
    if head == "" {
      assert head + rest == rest;
    } else {
      assert (head + rest)[1..] == head[1..] + rest;
      FindFirst(head[1..], rest);
    }
  }
}
