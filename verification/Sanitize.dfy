/** The name sanitizers: a string becomes its words joined by single hyphens, made to
    start with a letter and cut to 63 bytes. What counts as a letter or a digit is
    Unicode's choice, so the result need not be a label; exactly when is proved. */
module Sanitize {
  import PromotionName

  const LIMIT := 63

  predicate Ascii(c: char) { c < '\U{80}' }

  predicate Digit(c: char) { '0' <= c <= '9' }

  predicate Letter(c: char) { 'a' <= c <= 'z' || 'A' <= c <= 'Z' }

  predicate Alnum(c: char) { Letter(c) || Digit(c) }

  predicate Upper(c: char) { 'A' <= c <= 'Z' }

  /** Unicode's lower-casing of one character, its letters and digits, and how a
      character is spelled in UTF-8, each byte written as a character. */
  datatype Charset = Charset(lower: char -> char, alnum: char -> bool, utf8: char -> string)

  ghost predicate Unicode(u: Charset) {
    && (forall c :: Ascii(c) ==>
         u.lower(c) == PromotionName.LowerChar(c) && u.alnum(c) == Alnum(c) && u.utf8(c) == [c])
    && (forall c :: !Upper(u.lower(c)))
    && (forall c :: !Ascii(c) ==> |u.utf8(c)| > 1)
    && (forall c, k :: !Ascii(c) && 0 <= k < |u.utf8(c)| ==> !Ascii(u.utf8(c)[k]))
  }

  // ---- the promise -------------------------------------------------------

  function Lower(u: Charset, s: string): string {
    seq(|s|, i requires 0 <= i < |s| => u.lower(s[i]))
  }

  /** The maximal runs of letters and digits. */
  function Words(u: Charset, s: string): (ws: seq<string>)
    ensures s != "" && u.alnum(s[|s| - 1]) ==> ws != []
  {
    if s == "" then []
    else
      var n := |s| - 1;
      var ws := Words(u, s[..n]);
      if !u.alnum(s[n]) then ws
      else if n > 0 && u.alnum(s[n - 1]) then ws[..|ws| - 1] + [ws[|ws| - 1] + [s[n]]]
      else ws + [[s[n]]]
  }

  predicate IsWord(u: Charset, w: string) {
    w != "" && forall i :: 0 <= i < |w| ==> u.alnum(w[i])
  }

  predicate AreWords(u: Charset, ws: seq<string>) {
    forall i :: 0 <= i < |ws| ==> IsWord(u, ws[i])
  }

  function Join(ws: seq<string>): string {
    if ws == [] then ""
    else if |ws| == 1 then ws[0]
    else Join(ws[..|ws| - 1]) + "-" + ws[|ws| - 1]
  }

  function Encode(u: Charset, s: string): string {
    if s == "" then "" else Encode(u, s[..|s| - 1]) + u.utf8(s[|s| - 1])
  }

  function TrimRight(s: string): (r: string)
    ensures r <= s && (r != "" ==> r[|r| - 1] != '-')
  {
    if s != "" && s[|s| - 1] == '-' then TrimRight(s[..|s| - 1]) else s
  }

  function TrimLeft(s: string): string {
    if s != "" && s[0] == '-' then TrimLeft(s[1..]) else s
  }

  function Cut(s: string): string {
    if |s| > LIMIT then TrimRight(s[..LIMIT]) else s
  }

  function Prefixed(s: string, prefix: string): string {
    if s != "" && Digit(s[0]) then prefix + s else s
  }

  function WordsOf(u: Charset, raw: string): seq<string> {
    Words(u, Lower(u, raw))
  }

  function Sanitized(u: Charset, raw: string, prefix: string, fallback: string): string {
    var words := WordsOf(u, raw);
    if words == [] then fallback else Cut(Prefixed(Encode(u, Join(words)), prefix))
  }

  // ---- the code ----------------------------------------------------------

  /** The characters the loop keeps: a hyphen for each run of anything else. */
  function Collapse(u: Charset, s: string): string {
    if s == "" then ""
    else
      var built := Collapse(u, s[..|s| - 1]);
      if u.alnum(s[|s| - 1]) then built + [s[|s| - 1]]
      else if EndsInHyphen(built) then built
      else built + "-"
  }

  predicate EndsInHyphen(s: string) {
    s != "" && s[|s| - 1] == '-'
  }

  method CollapseRuns(u: Charset, s: string) returns (b: string)
    requires Unicode(u)
    ensures b == Encode(u, Collapse(u, s))
  {
    b := "";
    var prevHyphen := false;
    for i := 0 to |s|
      invariant b == Encode(u, Collapse(u, s[..i])) && prevHyphen == EndsInHyphen(Collapse(u, s[..i]))
    {
      assert s[..i + 1][..i] == s[..i];
      EncodeMore(u, Collapse(u, s[..i]), if u.alnum(s[i]) then s[i] else '-');
      if u.alnum(s[i]) {
        b := b + u.utf8(s[i]);
        prevHyphen := false;
      } else if !prevHyphen {
        b := b + "-";
        prevHyphen := true;
      }
    }
    assert s[..|s|] == s;
  }

  method SanitizeWith(u: Charset, raw: string, prefix: string, fallback: string) returns (result: string)
    requires Unicode(u)
    ensures result == Sanitized(u, raw, prefix, fallback)
  {
    var s := Lower(u, raw);
    var built := CollapseRuns(u, s);
    result := TrimRight(TrimLeft(built));
    TrimmedIsJoined(u, s);
    WordsAreWords(u, s);
    JoinEnds(u, Words(u, s));
    if Words(u, s) != [] { EncodedEnds(u, Join(Words(u, s))); }
    if result == "" { return fallback; }
    if Digit(result[0]) { result := prefix + result; }
    if |result| > LIMIT { result := TrimRight(result[..LIMIT]); }
  }

  method SanitizePreviewName(u: Charset, raw: string) returns (result: string)
    requires Unicode(u)
    ensures result == Sanitized(u, raw, "pr-", "preview")
    ensures Canonical(result) <==> Plain(u, raw, "pr-")
  {
    BothSanitizersAreGood();
    CanonicalExactly(u, raw, "pr-", "preview");
    result := SanitizeWith(u, raw, "pr-", "preview");
  }

  method SanitizeAppName(u: Charset, raw: string) returns (result: string)
    requires Unicode(u)
    ensures result == Sanitized(u, raw, "app-", "app")
    ensures Canonical(result) <==> Plain(u, raw, "app-")
  {
    BothSanitizersAreGood();
    CanonicalExactly(u, raw, "app-", "app");
    result := SanitizeWith(u, raw, "app-", "app");
  }

  // ---- the loop finds the words ------------------------------------------

  lemma {:induction false} WordsAreWords(u: Charset, s: string)
    ensures AreWords(u, Words(u, s))
  {
    if s == "" {
    } else {
      var n := |s| - 1;
      var ws := Words(u, s[..n]);
      WordsAreWords(u, s[..n]);
      if u.alnum(s[n]) && n > 0 && u.alnum(s[n - 1]) { assert IsWord(u, ws[|ws| - 1] + [s[n]]); }
    }
  }

  lemma {:induction false} JoinEnds(u: Charset, ws: seq<string>)
    requires AreWords(u, ws)
    ensures ws == [] <==> Join(ws) == ""
    ensures ws != [] ==> u.alnum(Join(ws)[0]) && u.alnum(Join(ws)[|Join(ws)| - 1])
  {
    if |ws| <= 1 {
    } else {
      JoinEnds(u, ws[..|ws| - 1]);
    }
  }

  function Joint(ws: seq<string>): string {
    if ws == [] then "" else Join(ws) + "-"
  }

  lemma JoinMore(ws: seq<string>, w: string)
    ensures Join(ws + [w]) == Joint(ws) + w
  {
    assert (ws + [w])[..|ws|] == ws;
  }

  lemma JoinExtend(ws: seq<string>, c: char)
    requires ws != []
    ensures Join(ws[..|ws| - 1] + [ws[|ws| - 1] + [c]]) == Join(ws) + [c]
  {
    var init, last := ws[..|ws| - 1], ws[|ws| - 1];
    JoinMore(init, last + [c]);
    JoinMore(init, last);
    assert ws == init + [last];
    Associates(Joint(init), last, [c]);
  }

  lemma Associates(a: string, b: string, c: string)
    ensures a + (b + c) == (a + b) + c
  {
  }

  function Lead(u: Charset, s: string): string {
    if s != "" && !u.alnum(s[0]) then "-" else ""
  }

  function Trail(u: Charset, s: string): string {
    if s != "" && !u.alnum(s[|s| - 1]) && Words(u, s) != [] then "-" else ""
  }

  /** The loop keeps the joined words, with a hyphen left at either end where the
      string began or ended in something else. */
  lemma {:induction false} CollapseIsWords(u: Charset, s: string)
    requires !u.alnum('-')
    ensures Explained(u, s)
  {
    if s == "" {
    } else {
      CollapseIsWords(u, s[..|s| - 1]);
      if u.alnum(s[|s| - 1]) { WordStep(u, s); } else { GapStep(u, s); }
    }
  }

  ghost predicate Explained(u: Charset, s: string) {
    Collapse(u, s) == Lead(u, s) + Join(Words(u, s)) + Trail(u, s)
  }

  lemma WordStep(u: Charset, s: string)
    requires s != "" && u.alnum(s[|s| - 1]) && Explained(u, s[..|s| - 1])
    ensures Explained(u, s)
  {
    var n := |s| - 1;
    assert Collapse(u, s) == Collapse(u, s[..n]) + [s[n]];
    if n == 0 {
      assert Words(u, s) == [[s[n]]];
    } else if u.alnum(s[n - 1]) {
      SameWord(u, s);
    } else {
      NewWord(u, s);
    }
  }

  lemma SameWord(u: Charset, s: string)
    requires |s| > 1 && u.alnum(s[|s| - 1]) && u.alnum(s[|s| - 2])
    requires Explained(u, s[..|s| - 1]) && Collapse(u, s) == Collapse(u, s[..|s| - 1]) + [s[|s| - 1]]
    ensures Explained(u, s)
  {
    var init, c := s[..|s| - 1], s[|s| - 1];
    var lead, j := Lead(u, init), Join(Words(u, init));
    LastWordGrows(u, s);
    SameEnds(u, s);
    assert Collapse(u, init) == lead + j + "" == lead + j;
    Associates(lead, j, [c]);
  }

  lemma LastWordGrows(u: Charset, s: string)
    requires |s| > 1 && u.alnum(s[|s| - 1]) && u.alnum(s[|s| - 2])
    ensures Join(Words(u, s)) == Join(Words(u, s[..|s| - 1])) + [s[|s| - 1]]
  {
    var ws, c := Words(u, s[..|s| - 1]), s[|s| - 1];
    assert Words(u, s) == ws[..|ws| - 1] + [ws[|ws| - 1] + [c]];
    JoinExtend(ws, c);
  }

  lemma SameEnds(u: Charset, s: string)
    requires |s| > 1 && u.alnum(s[|s| - 1]) && u.alnum(s[|s| - 2])
    ensures Lead(u, s) == Lead(u, s[..|s| - 1]) && Trail(u, s) == "" && Trail(u, s[..|s| - 1]) == ""
  {
  }

  lemma NewWord(u: Charset, s: string)
    requires |s| > 1 && u.alnum(s[|s| - 1]) && !u.alnum(s[|s| - 2])
    requires Explained(u, s[..|s| - 1]) && Collapse(u, s) == Collapse(u, s[..|s| - 1]) + [s[|s| - 1]]
    ensures Explained(u, s)
  {
    var init, c := s[..|s| - 1], s[|s| - 1];
    var lead, joint := Lead(u, init), Joint(Words(u, init));
    JoinMore(Words(u, init), [c]);
    assert Words(u, s) == Words(u, init) + [[c]];
    assert Join(Words(u, s)) == joint + [c];
    assert Lead(u, s) == lead && Trail(u, s) == "";
    assert Join(Words(u, init)) + Trail(u, init) == joint;
    Associates(lead, Join(Words(u, init)), Trail(u, init));
    assert Collapse(u, init) == lead + joint;
    Associates(lead, joint, [c]);
  }

  lemma GapStep(u: Charset, s: string)
    requires !u.alnum('-') && s != "" && !u.alnum(s[|s| - 1]) && Explained(u, s[..|s| - 1])
    ensures Explained(u, s)
  {
    var n := |s| - 1;
    var init := s[..n];
    assert Words(u, s) == Words(u, init);
    if n == 0 {
      assert Collapse(u, init) == "" && Lead(u, s) == "-" && Trail(u, s) == "";
    } else {
      assert Lead(u, s) == Lead(u, init);
      NoWordsNoAlnum(u, init);
      if Words(u, init) == [] {
        assert Collapse(u, init) == "-" == Lead(u, s) && Trail(u, s) == "";
      } else {
        GapAfterWords(u, s);
      }
    }
  }

  lemma GapAfterWords(u: Charset, s: string)
    requires !u.alnum('-')
    requires |s| > 1 && !u.alnum(s[|s| - 1]) && Explained(u, s[..|s| - 1]) && Words(u, s[..|s| - 1]) != []
    ensures Explained(u, s)
  {
    var init := s[..|s| - 1];
    var w := Lead(u, init) + Join(Words(u, init));
    WordsAreWords(u, init);
    JoinEnds(u, Words(u, init));
    GapAfterWord(w, Trail(u, init), Collapse(u, init));
    assert Collapse(u, s) == w + "-";
    assert Lead(u, s) == Lead(u, init) && Trail(u, s) == "-" && Words(u, s) == Words(u, init);
  }

  lemma GapAfterWord(w: string, trail: string, built: string)
    requires w != "" && w[|w| - 1] != '-' && trail in {"", "-"} && built == w + trail
    ensures (if EndsInHyphen(built) then built else built + "-") == w + "-"
  {
    assert built + "" == built;
  }

  lemma {:induction false} NoWordsNoAlnum(u: Charset, s: string)
    ensures Words(u, s) == [] <==> forall i :: 0 <= i < |s| ==> !u.alnum(s[i])
  {
    if s == "" {
    } else {
      NoWordsNoAlnum(u, s[..|s| - 1]);
      if Words(u, s) == [] { assert forall i :: 0 <= i < |s| - 1 ==> s[..|s| - 1][i] == s[i]; }
    }
  }

  // ---- bytes -------------------------------------------------------------

  lemma EncodeMore(u: Charset, s: string, c: char)
    ensures Encode(u, s + [c]) == Encode(u, s) + u.utf8(c)
  {
    assert (s + [c])[..|s|] == s;
  }

  lemma {:induction false} EncodeConcat(u: Charset, a: string, b: string)
    ensures Encode(u, a + b) == Encode(u, a) + Encode(u, b)
  {
    if b == "" {
      assert a + b == a;
    } else {
      var n := |b| - 1;
      EncodeConcat(u, a, b[..n]);
      assert (a + b)[..|a + b| - 1] == a + b[..n];
      Associates(Encode(u, a), Encode(u, b[..n]), u.utf8(b[n]));
    }
  }

  lemma EncodeOne(u: Charset, c: char)
    ensures Encode(u, [c]) == u.utf8(c)
  {
    assert [c][..0] == "" && "" + u.utf8(c) == u.utf8(c);
  }

  /** Only a hyphen is spelled with a hyphen. */
  lemma SpelledEnds(u: Charset, c: char)
    requires Unicode(u)
    ensures u.utf8(c) != "" && (u.utf8(c)[0] == '-' <==> c == '-') && (Digit(u.utf8(c)[0]) <==> Digit(c))
    ensures u.utf8(c)[|u.utf8(c)| - 1] == '-' <==> c == '-'
    ensures |u.utf8(c)| == 1 <==> Ascii(c)
  {
    if !Ascii(c) {
      assert !Ascii(u.utf8(c)[0]) && !Ascii(u.utf8(c)[|u.utf8(c)| - 1]);
    }
  }

  lemma EncodedEnds(u: Charset, s: string)
    requires Unicode(u) && s != ""
    ensures var b := Encode(u, s);
            && b != "" && (b[0] == '-' <==> s[0] == '-') && (Digit(b[0]) <==> Digit(s[0]))
            && (b[|b| - 1] == '-' <==> s[|s| - 1] == '-')
    ensures |Encode(u, s)| == 1 <==> |s| == 1 && Ascii(s[0])
  {
    SpelledEnds(u, s[0]);
    SpelledEnds(u, s[|s| - 1]);
    assert s == [s[0]] + s[1..];
    EncodeConcat(u, [s[0]], s[1..]);
    EncodeOne(u, s[0]);
    if |s| > 1 { SomeBytes(u, s[1..]); }
  }

  lemma SomeBytes(u: Charset, s: string)
    requires Unicode(u) && s != ""
    ensures Encode(u, s) != ""
  {
    SpelledEnds(u, s[|s| - 1]);
  }

  lemma TrimmedIsJoined(u: Charset, s: string)
    requires Unicode(u)
    ensures TrimRight(TrimLeft(Encode(u, Collapse(u, s)))) == Encode(u, Join(Words(u, s)))
  {
    var j := Join(Words(u, s));
    CollapseIsWords(u, s);
    WordsAreWords(u, s);
    JoinEnds(u, Words(u, s));
    EncodeConcat(u, Lead(u, s) + j, Trail(u, s));
    EncodeConcat(u, Lead(u, s), j);
    EncodeOne(u, '-');
    if Words(u, s) != [] {
      EncodedEnds(u, j);
      TrimEnds(Lead(u, s), Encode(u, j), Trail(u, s));
    } else {
      NoWordsNoAlnum(u, s);
      assert TrimLeft("-") == TrimLeft("-"[1..]) == "";
    }
  }

  lemma TrimEnds(lead: string, j: string, trail: string)
    requires j != "" && j[0] != '-' && j[|j| - 1] != '-'
    requires lead in {"", "-"} && trail in {"", "-"}
    ensures TrimRight(TrimLeft(lead + j + trail)) == j
  {
    Associates(lead, j, trail);
    TrimLead(lead, j + trail);
    TrimTrail(j, trail);
  }

  lemma TrimLead(lead: string, rest: string)
    requires rest != "" && rest[0] != '-' && lead in {"", "-"}
    ensures TrimLeft(lead + rest) == rest
  {
    if lead == "" { assert lead + rest == rest; } else { assert (lead + rest)[1..] == rest; }
  }

  lemma TrimTrail(j: string, trail: string)
    requires j != "" && j[|j| - 1] != '-' && trail in {"", "-"}
    ensures TrimRight(j + trail) == j
  {
    if trail == "" { assert j + trail == j; } else { assert (j + trail)[..|j|] == j; }
  }

  // ---- what comes out ----------------------------------------------------

  predicate LabelChar(c: char) {
    'a' <= c <= 'z' || Digit(c) || c == '-'
  }

  /** A letter first, a letter or digit last, no two hyphens together. */
  ghost predicate Canonical(s: string) {
    && 0 < |s| <= LIMIT
    && (forall i :: 0 <= i < |s| ==> LabelChar(s[i]))
    && 'a' <= s[0] <= 'z' && s[|s| - 1] != '-'
    && NoAdjacentHyphens(s)
  }

  predicate NoAdjacentHyphens(s: string) {
    forall i :: 0 < i < |s| ==> !(s[i - 1] == '-' && s[i] == '-')
  }

  /** A DNS label: a letter, up to 61 letters, digits or hyphens, a letter or digit. */
  predicate IsDNSLabel(s: string) {
    2 <= |s| <= 63 && 'a' <= s[0] <= 'z' && s[|s| - 1] != '-' && forall i :: 0 <= i < |s| ==> LabelChar(s[i])
  }

  /** Every character whose first byte is among so many is ASCII. */
  predicate AsciiStarts(u: Charset, s: string, room: int) {
    forall i :: 0 <= i < |s| && |Encode(u, s[..i])| < room ==> Ascii(s[i])
  }

  /** The letters and digits that are not cut off are all ASCII. */
  predicate Plain(u: Charset, raw: string, prefix: string) {
    var s := Join(WordsOf(u, raw));
    AsciiStarts(u, s, if s != "" && Digit(s[0]) then LIMIT - |prefix| else LIMIT)
  }

  /** A label character, or one outside ASCII. */
  predicate Mild(c: char) {
    LabelChar(c) || !Ascii(c)
  }

  ghost predicate MildWord(u: Charset, w: string) {
    IsWord(u, w) && forall k :: 0 <= k < |w| ==> Mild(w[k])
  }

  ghost predicate MildWords(u: Charset, ws: seq<string>) {
    forall i :: 0 <= i < |ws| ==> MildWord(u, ws[i])
  }

  lemma {:induction false} WordsOfLower(u: Charset, s: string)
    requires Unicode(u) && forall i :: 0 <= i < |s| ==> !Upper(s[i])
    ensures MildWords(u, Words(u, s))
  {
    if s == "" {
    } else {
      var n := |s| - 1;
      WordsOfLower(u, s[..n]);
      var ws := Words(u, s[..n]);
      if u.alnum(s[n]) {
        assert Mild(s[n]) && MildWord(u, [s[n]]);
        if n > 0 && u.alnum(s[n - 1]) { assert MildWord(u, ws[|ws| - 1] + [s[n]]); }
      }
    }
  }

  lemma {:induction false} JoinIsClean(u: Charset, ws: seq<string>)
    requires !u.alnum('-') && MildWords(u, ws)
    ensures NoAdjacentHyphens(Join(ws)) && forall i :: 0 <= i < |Join(ws)| ==> Mild(Join(ws)[i])
  {
    if ws == [] {
    } else if |ws| == 1 {
      assert MildWord(u, ws[0]);
    } else {
      var n := |ws| - 1;
      JoinIsClean(u, ws[..n]);
      JoinEnds(u, ws[..n]);
      assert MildWord(u, ws[n]);
    }
  }

  lemma {:induction false} EncodedIsClean(u: Charset, s: string)
    requires Unicode(u) && NoAdjacentHyphens(s) && forall i :: 0 <= i < |s| ==> Mild(s[i])
    ensures NoAdjacentHyphens(Encode(u, s)) && forall i :: 0 <= i < |Encode(u, s)| ==> Mild(Encode(u, s)[i])
  {
    if s == "" {
    } else {
      var n := |s| - 1;
      EncodedIsClean(u, s[..n]);
      SpelledEnds(u, s[n]);
      if n > 0 { EncodedEnds(u, s[..n]); }
      assert NoAdjacentHyphens(u.utf8(s[n])) by {
        assert forall k :: 0 <= k < |u.utf8(s[n])| && !Ascii(s[n]) ==> !Ascii(u.utf8(s[n])[k]);
      }
    }
  }

  ghost predicate AsciiBytes(b: string, room: int) {
    forall k :: 0 <= k < |b| && k < room ==> Ascii(b[k])
  }

  /** The bytes within the room are ASCII exactly when the characters that start
      there are. */
  lemma {:induction false} FirstBytes(u: Charset, s: string, room: int)
    requires Unicode(u)
    ensures AsciiBytes(Encode(u, s), room) <==> AsciiStarts(u, s, room)
  {
    if s == "" {
    } else {
      var n := |s| - 1;
      FirstBytes(u, s[..n], room);
      assert s == s[..n] + [s[n]];
      StartsMore(u, s[..n], s[n], room);
      SpelledAlike(u, s[n]);
      BytesConcat(Encode(u, s[..n]), u.utf8(s[n]), room, Ascii(s[n]));
    }
  }

  lemma StartsMore(u: Charset, s: string, c: char, room: int)
    ensures AsciiStarts(u, s + [c], room) <==> AsciiStarts(u, s, room) && (|Encode(u, s)| < room ==> Ascii(c))
  {
    var t := s + [c];
    assert t[..|s|] == s && forall i :: 0 <= i < |s| ==> t[..i] == s[..i] && t[i] == s[i];
    if AsciiStarts(u, t, room) && |Encode(u, s)| < room { assert Ascii(t[|s|]); }
  }

  lemma SpelledAlike(u: Charset, c: char)
    requires Unicode(u)
    ensures u.utf8(c) != "" && forall k :: 0 <= k < |u.utf8(c)| ==> (Ascii(u.utf8(c)[k]) <==> Ascii(c))
  {
    SpelledEnds(u, c);
  }

  lemma BytesConcat(a: string, b: string, room: int, ascii: bool)
    requires b != "" && forall k :: 0 <= k < |b| ==> (Ascii(b[k]) <==> ascii)
    ensures AsciiBytes(a + b, room) <==> AsciiBytes(a, room) && (|a| < room ==> ascii)
  {
    if AsciiBytes(a + b, room) {
      assert forall k :: 0 <= k < |a| ==> (a + b)[k] == a[k];
      if |a| < room { assert (a + b)[|a|] == b[0]; }
    }
  }

  lemma CutIsCanonical(s: string)
    requires s != "" && s[0] != '-' && !Digit(s[0]) && s[|s| - 1] != '-' && NoAdjacentHyphens(s)
    requires forall i :: 0 <= i < |s| ==> Mild(s[i])
    ensures Canonical(Cut(s)) <==> AsciiBytes(s, LIMIT)
  {
    if |s| > LIMIT {
      var head := s[..LIMIT];
      var r := TrimRight(head);
      TrimRightKeeps(head);
      assert forall i :: 0 <= i < |r| ==> r[i] == s[i];
      if Canonical(r) {
        forall k | 0 <= k < LIMIT ensures Ascii(s[k]) {
          if s[k] != '-' { TrimKeepsOther(head, k); }
        }
      }
    }
  }

  lemma {:induction false} TrimRightKeeps(s: string)
    requires s != "" && s[0] != '-'
    ensures TrimRight(s) != ""
  {
    if s[|s| - 1] == '-' { TrimRightKeeps(s[..|s| - 1]); }
  }

  lemma {:induction false} TrimKeepsOther(s: string, k: nat)
    requires k < |s| && s[k] != '-'
    ensures k < |TrimRight(s)|
  {
    if s[|s| - 1] == '-' { TrimKeepsOther(s[..|s| - 1], k); }
  }

  /** A usable prefix is a word and a hyphen, as "pr-" and "app-" are. */
  ghost predicate GoodPrefix(prefix: string) {
    |prefix| > 1 && prefix[|prefix| - 1] == '-' && forall i :: 0 <= i < |prefix| - 1 ==> 'a' <= prefix[i] <= 'z'
  }

  /** The joined words as bytes: clean, and ending as words do. */
  lemma JoinedBytes(u: Charset, raw: string)
    requires Unicode(u) && WordsOf(u, raw) != []
    ensures var s := Join(WordsOf(u, raw)); var b := Encode(u, s);
            && s != "" && b != "" && b[0] != '-' && b[|b| - 1] != '-' && (Digit(b[0]) <==> Digit(s[0]))
            && NoAdjacentHyphens(b) && forall i :: 0 <= i < |b| ==> Mild(b[i])
  {
    var words := WordsOf(u, raw);
    WordsOfLower(u, Lower(u, raw));
    WordsAreWords(u, Lower(u, raw));
    JoinIsClean(u, words);
    JoinEnds(u, words);
    EncodedEnds(u, Join(words));
    EncodedIsClean(u, Join(words));
  }

  /** The result is of canonical form exactly when what is kept is ASCII. */
  lemma CanonicalExactly(u: Charset, raw: string, prefix: string, fallback: string)
    requires Unicode(u) && GoodPrefix(prefix) && Canonical(fallback)
    ensures Canonical(Sanitized(u, raw, prefix, fallback)) <==> Plain(u, raw, prefix)
  {
    var words := WordsOf(u, raw);
    if words != [] {
      var s := Join(words);
      var b := Encode(u, s);
      JoinedBytes(u, raw);
      FirstBytes(u, s, if Digit(s[0]) then LIMIT - |prefix| else LIMIT);
      if Digit(s[0]) { BytesAfter(prefix, b); }
      CutIsCanonical(Prefixed(b, prefix));
    }
  }

  lemma BytesAfter(prefix: string, b: string)
    requires GoodPrefix(prefix) && b != "" && b[0] != '-' && NoAdjacentHyphens(b)
    ensures AsciiBytes(prefix + b, LIMIT) <==> AsciiBytes(b, LIMIT - |prefix|)
    ensures NoAdjacentHyphens(prefix + b)
  {
    assert forall k :: 0 <= k < |prefix| ==> Ascii(prefix[k]);
    if AsciiBytes(prefix + b, LIMIT) {
      forall k | 0 <= k < |b| && k < LIMIT - |prefix| ensures Ascii(b[k]) {
        assert (prefix + b)[|prefix| + k] == b[k];
      }
    }
  }

  // ---- names left alone --------------------------------------------------

  ghost predicate AllAscii(s: string) {
    forall i :: 0 <= i < |s| ==> Ascii(s[i])
  }

  /** ASCII text is its own spelling, ... */
  lemma {:induction false} EncodeAscii(u: Charset, s: string)
    requires Unicode(u) && AllAscii(s)
    ensures Encode(u, s) == s
  {
    if s == "" {
    } else {
      var n := |s| - 1;
      EncodeAscii(u, s[..n]);
      assert u.utf8(s[n]) == [s[n]] && s == s[..n] + [s[n]];
    }
  }

  /** ... and nothing else is spelled in ASCII. */
  lemma {:induction false} OnlyAscii(u: Charset, s: string)
    requires Unicode(u) && AllAscii(Encode(u, s))
    ensures AllAscii(s)
  {
    if s == "" {
    } else {
      var n := |s| - 1;
      var init, last := Encode(u, s[..n]), u.utf8(s[n]);
      AsciiParts(init, last);
      OnlyAscii(u, s[..n]);
      SpelledEnds(u, s[n]);
      assert Ascii(last[0]);
    }
  }

  lemma AsciiParts(a: string, b: string)
    requires AllAscii(a + b)
    ensures AllAscii(a) && AllAscii(b)
  {
    assert forall i :: 0 <= i < |a| ==> a[i] == (a + b)[i];
    assert forall i :: 0 <= i < |b| ==> b[i] == (a + b)[|a| + i];
  }

  /** Only letters and digits, as lower-casing leaves them, and single hyphens between. */
  ghost predicate Settled(u: Charset, s: string) {
    && s != "" && s[0] != '-' && s[|s| - 1] != '-' && NoAdjacentHyphens(s)
    && forall i :: 0 <= i < |s| ==> (u.alnum(s[i]) <==> s[i] != '-') && u.lower(s[i]) == s[i]
  }

  lemma {:induction false} CollapseSettled(u: Charset, s: string)
    requires NoAdjacentHyphens(s) && forall i :: 0 <= i < |s| ==> (u.alnum(s[i]) <==> s[i] != '-')
    ensures Collapse(u, s) == s
  {
    if s == "" {
    } else {
      CollapseSettled(u, s[..|s| - 1]);
    }
  }

  lemma SettledWords(u: Charset, s: string)
    requires !u.alnum('-') && Settled(u, s)
    ensures Join(Words(u, s)) == s && Words(u, s) != []
  {
    CollapseSettled(u, s);
    CollapseIsWords(u, s);
    assert Lead(u, s) == "" && Trail(u, s) == "";
  }

  lemma SettledIsFixed(u: Charset, s: string, prefix: string, fallback: string)
    requires Unicode(u) && Settled(u, s) && !Digit(s[0]) && |Encode(u, s)| <= LIMIT
    ensures Sanitized(u, s, prefix, fallback) == Encode(u, s)
  {
    SameLower(u, s);
    SettledWords(u, s);
    EncodedEnds(u, s);
  }

  lemma SameLower(u: Charset, s: string)
    requires forall i :: 0 <= i < |s| ==> u.lower(s[i]) == s[i]
    ensures Lower(u, s) == s
  {
  }

  /** Names already in canonical form are left alone. */
  lemma CanonicalIsFixed(u: Charset, s: string, prefix: string, fallback: string)
    requires Unicode(u) && Canonical(s)
    ensures Sanitized(u, s, prefix, fallback) == s
  {
    EncodeAscii(u, s);
    SettledIsFixed(u, s, prefix, fallback);
  }

  /** Where the result is of canonical form, sanitizing twice is sanitizing once, and
      the names left alone are exactly those of that form. */
  lemma Idempotent(u: Charset, raw: string, prefix: string, fallback: string)
    requires Unicode(u) && GoodPrefix(prefix) && Canonical(fallback) && Plain(u, raw, prefix)
    ensures Sanitized(u, Sanitized(u, raw, prefix, fallback), prefix, fallback) == Sanitized(u, raw, prefix, fallback)
    ensures Sanitized(u, raw, prefix, fallback) == Encode(u, raw) <==> Canonical(raw)
  {
    CanonicalExactly(u, raw, prefix, fallback);
    CanonicalIsFixed(u, Sanitized(u, raw, prefix, fallback), prefix, fallback);
    LeftAloneExactly(u, raw, prefix, fallback);
  }

  lemma LeftAloneExactly(u: Charset, raw: string, prefix: string, fallback: string)
    requires Unicode(u) && Canonical(Sanitized(u, raw, prefix, fallback))
    ensures Sanitized(u, raw, prefix, fallback) == Encode(u, raw) <==> Canonical(raw)
  {
    if Canonical(raw) {
      EncodeAscii(u, raw);
      CanonicalIsFixed(u, raw, prefix, fallback);
    }
    if Canonical(Encode(u, raw)) {
      OnlyAscii(u, raw);
      EncodeAscii(u, raw);
    }
  }

  /** The result as text, if nothing is cut off. */
  function Text(u: Charset, raw: string, prefix: string): string {
    Prefixed(Join(WordsOf(u, raw)), prefix)
  }

  predicate Uncut(u: Charset, raw: string, prefix: string) {
    WordsOf(u, raw) != [] && |Encode(u, Text(u, raw, prefix))| <= LIMIT
  }

  lemma {:induction false} JoinSettled(u: Charset, ws: seq<string>)
    requires !u.alnum('-') && u.lower('-') == '-' && AreWords(u, ws)
    requires forall i, k :: 0 <= i < |ws| && 0 <= k < |ws[i]| ==> u.lower(ws[i][k]) == ws[i][k]
    ensures NoAdjacentHyphens(Join(ws))
    ensures forall i :: 0 <= i < |Join(ws)| ==>
              (u.alnum(Join(ws)[i]) <==> Join(ws)[i] != '-') && u.lower(Join(ws)[i]) == Join(ws)[i]
  {
    if ws == [] {
    } else if |ws| == 1 {
      assert IsWord(u, ws[0]);
    } else {
      var n := |ws| - 1;
      JoinSettled(u, ws[..n]);
      JoinEnds(u, ws[..n]);
      assert IsWord(u, ws[n]);
    }
  }

  lemma {:induction false} WordsKeep(u: Charset, s: string)
    requires forall i :: 0 <= i < |s| ==> u.lower(s[i]) == s[i]
    ensures forall i, k :: 0 <= i < |Words(u, s)| && 0 <= k < |Words(u, s)[i]| ==>
              u.lower(Words(u, s)[i][k]) == Words(u, s)[i][k]
  {
    if s == "" {
    } else {
      WordsKeep(u, s[..|s| - 1]);
    }
  }

  /** Whatever its letters, text that is not cut is left alone by a second pass. */
  lemma UncutIsFixed(u: Charset, raw: string, prefix: string, fallback: string)
    requires Unicode(u) && (forall c :: u.lower(u.lower(c)) == u.lower(c)) && GoodPrefix(prefix)
    requires Uncut(u, raw, prefix)
    ensures Sanitized(u, raw, prefix, fallback) == Encode(u, Text(u, raw, prefix))
    ensures Sanitized(u, Text(u, raw, prefix), prefix, fallback) == Sanitized(u, raw, prefix, fallback)
  {
    var words, low := WordsOf(u, raw), Lower(u, raw);
    WordsAreWords(u, low);
    WordsKeep(u, low);
    JoinSettled(u, words);
    JoinEnds(u, words);
    TextSettled(u, Join(words), prefix);
    SettledIsFixed(u, Text(u, raw, prefix), prefix, fallback);
  }

  lemma TextSettled(u: Charset, s: string, prefix: string)
    requires Unicode(u) && GoodPrefix(prefix) && Settled(u, s)
    ensures Settled(u, Prefixed(s, prefix)) && !Digit(Prefixed(s, prefix)[0])
    ensures Encode(u, Prefixed(s, prefix)) == Prefixed(Encode(u, s), prefix)
  {
    EncodedEnds(u, s);
    if Digit(s[0]) {
      EncodeConcat(u, prefix, s);
      EncodeAscii(u, prefix);
      assert forall i :: 0 <= i < |prefix| ==>
               (u.alnum(prefix[i]) <==> prefix[i] != '-') && u.lower(prefix[i]) == prefix[i];
    }
  }

  // ---- labels ------------------------------------------------------------

  /** The result is a DNS label exactly when what is kept is ASCII and it is not a
      single letter. */
  lemma LabelExactly(u: Charset, raw: string, prefix: string, fallback: string)
    requires Unicode(u) && GoodPrefix(prefix) && Canonical(fallback)
    ensures IsDNSLabel(Sanitized(u, raw, prefix, fallback)) <==>
              Plain(u, raw, prefix) && |Sanitized(u, raw, prefix, fallback)| != 1
  {
    CanonicalExactly(u, raw, prefix, fallback);
    NeverAdjacent(u, raw, prefix, fallback);
    LabelOrLetter(Sanitized(u, raw, prefix, fallback));
  }

  lemma LabelOrLetter(s: string)
    requires NoAdjacentHyphens(s)
    ensures IsDNSLabel(s) <==> Canonical(s) && |s| != 1
  {
  }

  lemma NeverAdjacent(u: Charset, raw: string, prefix: string, fallback: string)
    requires Unicode(u) && GoodPrefix(prefix) && Canonical(fallback)
    ensures NoAdjacentHyphens(Sanitized(u, raw, prefix, fallback))
  {
    if WordsOf(u, raw) != [] {
      JoinedBytes(u, raw);
      var b := Encode(u, Join(WordsOf(u, raw)));
      if Digit(b[0]) { BytesAfter(prefix, b); }
      CutKeepsApart(Prefixed(b, prefix));
    }
  }

  lemma CutKeepsApart(s: string)
    requires NoAdjacentHyphens(s)
    ensures NoAdjacentHyphens(Cut(s))
  {
    assert Cut(s) <= s;
    assert forall i :: 0 <= i < |Cut(s)| ==> Cut(s)[i] == s[i];
  }

  /** A single letter comes out exactly when the input has one word, one letter. */
  lemma OneLetterExactly(u: Charset, raw: string, prefix: string, fallback: string)
    requires Unicode(u) && GoodPrefix(prefix) && Canonical(fallback) && |fallback| > 1
    ensures |Sanitized(u, raw, prefix, fallback)| == 1 <==>
              var ws := WordsOf(u, raw);
              |ws| == 1 && |ws[0]| == 1 && Ascii(ws[0][0]) && !Digit(ws[0][0])
  {
    var ws := WordsOf(u, raw);
    if ws != [] {
      JoinedBytes(u, raw);
      WordsAreWords(u, Lower(u, raw));
      JoinOfOne(u, ws);
      EncodedEnds(u, Join(ws));
      var b := Encode(u, Join(ws));
      if Digit(b[0]) { BytesAfter(prefix, b); }
      if |Prefixed(b, prefix)| > LIMIT { CutLong(Prefixed(b, prefix)); }
    }
  }

  lemma JoinOfOne(u: Charset, ws: seq<string>)
    requires ws != [] && AreWords(u, ws)
    ensures |Join(ws)| == 1 <==> |ws| == 1 && |ws[0]| == 1
    ensures |ws| == 1 ==> Join(ws) == ws[0]
  {
    if |ws| > 1 { JoinEnds(u, ws[..|ws| - 1]); }
  }

  lemma CutLong(s: string)
    requires |s| > LIMIT && NoAdjacentHyphens(s)
    ensures |Cut(s)| > 1
  {
    var head := s[..LIMIT];
    if head[LIMIT - 1] == '-' {
      assert s[LIMIT - 2] != '-';
      var r := head[..LIMIT - 1];
      assert r[|r| - 1] == s[LIMIT - 2];
      assert TrimRight(head) == TrimRight(r) == r;
    }
  }

  // ---- what is kept ------------------------------------------------------

  function LettersAndDigits(u: Charset, s: string): string {
    if s == "" then ""
    else LettersAndDigits(u, s[..|s| - 1]) + if u.alnum(s[|s| - 1]) then [s[|s| - 1]] else ""
  }

  lemma {:induction false} WordsKeepLetters(u: Charset, s: string)
    requires !u.alnum('-')
    ensures LettersAndDigits(u, Join(Words(u, s))) == LettersAndDigits(u, s)
  {
    if s == "" {
    } else {
      var n := |s| - 1;
      var ws := Words(u, s[..n]);
      WordsKeepLetters(u, s[..n]);
      if u.alnum(s[n]) {
        if n > 0 && u.alnum(s[n - 1]) {
          JoinExtend(ws, s[n]);
          OneMoreLetter(u, Join(ws), s[n]);
        } else {
          JoinMore(ws, [s[n]]);
          OneMoreLetter(u, Joint(ws), s[n]);
          if ws != [] { OneMoreLetter(u, Join(ws), '-'); }
        }
      }
    }
  }

  lemma OneMoreLetter(u: Charset, s: string, c: char)
    ensures LettersAndDigits(u, s + [c]) == LettersAndDigits(u, s) + if u.alnum(c) then [c] else ""
  {
    assert (s + [c])[..|s|] == s;
  }

  /** What is in the result of a text, all its bytes unless there are more than 63, then
      the first 63 but for a hyphen at their end. */
  ghost predicate FitsLimit(full: string, result: string) {
    && result <= full
    && (|full| <= 63 ==> result == full)
    && (|full| > 63 ==> |result| == if full[62] == '-' then 62 else 63)
  }

  /** Nothing is lost before the cut: the joined words have all letters and digits of the
      lower-cased input, in order; a prefix goes in front of a digit and nothing else; and
      only an input without a letter or digit is given the fallback. */
  lemma NothingLost(u: Charset, raw: string, prefix: string, fallback: string)
    requires Unicode(u) && GoodPrefix(prefix)
    ensures LettersAndDigits(u, Join(WordsOf(u, raw))) == LettersAndDigits(u, Lower(u, raw))
    ensures var (b, r) := (Encode(u, Join(WordsOf(u, raw))), Sanitized(u, raw, prefix, fallback));
            if forall i :: 0 <= i < |raw| ==> !u.alnum(u.lower(raw[i])) then r == fallback
            else b != "" && FitsLimit(if '0' <= b[0] <= '9' then prefix + b else b, r)
  {
    var low := Lower(u, raw);
    WordsKeepLetters(u, low);
    NoWordsNoAlnum(u, low);
    assert forall i :: 0 <= i < |raw| ==> low[i] == u.lower(raw[i]);
    if WordsOf(u, raw) != [] {
      JoinedBytes(u, raw);
      var b := Encode(u, Join(WordsOf(u, raw)));
      if Digit(b[0]) { BytesAfter(prefix, b); }
      CutFits(Prefixed(b, prefix));
    }
  }

  lemma CutFits(full: string)
    requires NoAdjacentHyphens(full)
    ensures FitsLimit(full, Cut(full))
  {
    if |full| > 63 {
      var head := full[..63];
      if full[62] == '-' {
        assert full[61] != '-';
        assert head[..62][61] == full[61];
        assert TrimRight(head) == TrimRight(head[..62]) == head[..62];
      }
    }
  }

  /** A letter outside ASCII is kept, so its name is no label. */
  lemma OtherLettersStay(u: Charset, c: char)
    requires Unicode(u) && !Ascii(c) && u.alnum(c) && u.lower(c) == c
    ensures !IsDNSLabel(Sanitized(u, [c], "pr-", "preview"))
  {
    assert Lower(u, [c]) == [c] && [c][..0] == "";
    assert Words(u, [c]) == [[c]];
    BothSanitizersAreGood();
    LabelExactly(u, [c], "pr-", "preview");
    assert !AsciiStarts(u, [c], LIMIT);
  }

  /** Both callers' prefixes and fallbacks are good ones. */
  lemma BothSanitizersAreGood()
    ensures GoodPrefix("pr-") && Canonical("preview") && GoodPrefix("app-") && Canonical("app")
  {
  }
}
