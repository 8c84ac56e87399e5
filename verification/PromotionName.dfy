/** Kargo-compatible promotion names: the stage (at most 218 characters), a
    lower-cased ULID, and the first seven characters of the Freight ID. Strings
    are ASCII, so characters and bytes coincide. ULID entropy and clock are a
    parameter; only the 26-character shape and the alphabet matter. */
module PromotionName {
  import opened Lex
  import Reservation

  const ULID_LENGTH := 26
  const STAGE_LIMIT := 218
  const FREIGHT_LIMIT := 7

  function LowerChar(c: char): char {
    if 'A' <= c <= 'Z' then c - 'A' + 'a' else c
  }

  function Lower(s: string): (r: string)
    ensures |r| == |s|
    ensures forall i :: 0 <= i < |s| ==> r[i] == LowerChar(s[i])
  {
    if s == "" then "" else [LowerChar(s[0])] + Lower(s[1..])
  }

  function Truncate(s: string, n: nat): string {
    if |s| > n then s[..n] else s
  }

  /** Everything after the stage. */
  function Tail(ulid: string, freight: string): string {
    "." + (ulid + ("." + Truncate(freight, FREIGHT_LIMIT)))
  }

  function NativeName(stage: string, ulid: string, freight: string): string {
    Lower(Truncate(stage, STAGE_LIMIT) + Tail(ulid, freight))
  }

  /** The ULID alphabet, Crockford's base 32: its letters are upper case. */
  predicate IsUlid(u: string) {
    |u| == ULID_LENGTH && forall i :: 0 <= i < |u| ==> ('0' <= u[i] <= '9' || 'A' <= u[i] <= 'Z')
  }

  lemma LengthLimit(stage: string, ulid: string, freight: string)
    requires IsUlid(ulid)
    ensures |NativeName(stage, ulid, freight)| <= 253
    ensures |NativeName(stage, ulid, freight)| == 253 <==> |stage| >= 218 && |freight| >= 7
  {
    assert |Tail(ulid, freight)| == 1 + ULID_LENGTH + 1 + |Truncate(freight, FREIGHT_LIMIT)|;
  }

  /** The parts of a name and where they lie. */
  lemma NameParts(stage: string, ulid: string, freight: string)
    requires IsUlid(ulid)
    ensures var name := NativeName(stage, ulid, freight);
            var k := if |stage| < 218 then |stage| else 218;
            && |name| == k + 28 + (if |freight| < 7 then |freight| else 7)
            && (forall i :: 0 <= i < k ==> name[i] == LowerChar(stage[i]))
            && name[k] == '.' && name[k + 27] == '.'
            && (forall i :: 0 <= i < 26 ==> name[k + 1 + i] == LowerChar(ulid[i]))
            && (forall i :: k + 28 <= i < |name| ==> name[i] == LowerChar(freight[i - k - 28]))
  {
    assert |Tail(ulid, freight)| == 28 + |Truncate(freight, FREIGHT_LIMIT)|;
  }

  lemma {:induction false} LowerConcat(a: string, b: string)
    ensures Lower(a + b) == Lower(a) + Lower(b)
  {
    assert forall i :: 0 <= i < |a + b| ==> Lower(a + b)[i] == (Lower(a) + Lower(b))[i];
  }

  /** Lower-casing shifts all letters past the digits together, so it keeps the
      order of ULIDs. */
  lemma {:induction false} LowerKeepsOrder(u: string, v: string)
    requires |u| == |v|
    requires forall i :: 0 <= i < |u| ==> ('0' <= u[i] <= '9' || 'A' <= u[i] <= 'Z')
    requires forall i :: 0 <= i < |v| ==> ('0' <= v[i] <= '9' || 'A' <= v[i] <= 'Z')
    ensures Less(Lower(u), Lower(v)) <==> Less(u, v)
  {
    if u == "" {
    } else {
      assert Lower(u)[1..] == Lower(u[1..]) && Lower(v)[1..] == Lower(v[1..]);
      LowerKeepsOrder(u[1..], v[1..]);
    }
  }

  function LowerTail(ulid: string, freight: string): string {
    "." + (Lower(ulid) + ("." + Lower(Truncate(freight, FREIGHT_LIMIT))))
  }

  lemma Shape(stage: string, ulid: string, freight: string)
    ensures NativeName(stage, ulid, freight) == Lower(Truncate(stage, STAGE_LIMIT)) + LowerTail(ulid, freight)
  {
    var f := Truncate(freight, FREIGHT_LIMIT);
    LowerConcat(Truncate(stage, STAGE_LIMIT), Tail(ulid, freight));
    LowerConcat(".", ulid + ("." + f));
    LowerConcat(ulid, "." + f);
    LowerConcat(".", f);
    assert Lower(".") == ".";
  }

  /** Names of one stage sort by ULID, whatever Freight they carry. */
  lemma LaterUlidLaterName(stage: string, u: string, f: string, v: string, g: string)
    requires IsUlid(u) && IsUlid(v) && Less(u, v)
    ensures Less(NativeName(stage, u, f), NativeName(stage, v, g))
  {
    Shape(stage, u, f);
    Shape(stage, v, g);
    LowerKeepsOrder(u, v);
    var x, y := "." + Lower(Truncate(f, FREIGHT_LIMIT)), "." + Lower(Truncate(g, FREIGHT_LIMIT));
    SameLengthDecides(Lower(u), Lower(v), x, y);
    CommonPrefix(".", Lower(u) + x, Lower(v) + y);
    CommonPrefix(Lower(Truncate(stage, STAGE_LIMIT)), LowerTail(u, f), LowerTail(v, g));
  }

  lemma ProposeLater(predecessor: string, name: string)
    requires Less(predecessor, name)
    ensures Reservation.Propose(predecessor, name).Write?
  {
    Asymmetric(predecessor, name);
    Irreflexive(predecessor);
  }

  /** While the clock moves forward a history of native names never blocks a
      reservation: a fresh name is always acceptable after an older one. */
  lemma NativeHistoryNeverBlocks(stage: string, u: string, f: string, v: string, g: string)
    requires IsUlid(u) && IsUlid(v) && Less(u, v)
    ensures Reservation.Propose(NativeName(stage, u, f), NativeName(stage, v, g)).Write?
  {
    LaterUlidLaterName(stage, u, f, v, g);
    ProposeLater(NativeName(stage, u, f), NativeName(stage, v, g));
  }

  lemma DashBeforeDot(x: string, y: string)
    ensures Less("-" + x, "." + y)
  {
    assert ("-" + x)[0] == '-' && ("." + y)[0] == '.';
  }

  /** A legacy "stage-timestamp" name, '-' sorting before '.', never blocks a native
      one of a stage that is not cut. For a longer stage the first character cut off
      takes the place of the '.': it blocks exactly when it sorts after it, as every
      letter and digit does. */
  lemma LegacyHistory(stage: string, timestamp: string, v: string, g: string)
    requires Lower(stage) == stage && IsUlid(v)
    ensures var accepted := Reservation.Propose(stage + "-" + timestamp, NativeName(stage, v, g)).Write?;
            && (|stage| <= STAGE_LIMIT ==> accepted)
            && (|stage| > STAGE_LIMIT && stage[STAGE_LIMIT] != '.' ==> (accepted <==> stage[STAGE_LIMIT] < '.'))
            && (|stage| > STAGE_LIMIT ==>
                  (accepted <==> Less(stage[STAGE_LIMIT..] + "-" + timestamp, LowerTail(v, g))))
  {
    var cut := if |stage| > STAGE_LIMIT then STAGE_LIMIT else |stage|;
    LegacyAfterCut(stage, timestamp, v, g, cut);
    ProposeExactly(stage + "-" + timestamp, NativeName(stage, v, g));
    var rest := stage[cut..] + "-" + timestamp;
    assert LowerTail(v, g)[0] == '.';
    if |stage| <= STAGE_LIMIT {
      assert rest == "-" + timestamp;
      DashBeforeDot(timestamp, LowerTail(v, g)[1..]);
      assert LowerTail(v, g) == "." + LowerTail(v, g)[1..];
    } else {
      assert rest[0] == stage[STAGE_LIMIT];
    }
  }

  lemma ProposeExactly(predecessor: string, name: string)
    ensures Reservation.Propose(predecessor, name).Write? <==> Less(predecessor, name)
  {
    if Less(predecessor, name) {
      ProposeLater(predecessor, name);
    } else {
      Trichotomy(predecessor, name);
    }
  }

  lemma LegacyAfterCut(stage: string, timestamp: string, v: string, g: string, cut: nat)
    requires Lower(stage) == stage && IsUlid(v) && cut == if |stage| > STAGE_LIMIT then STAGE_LIMIT else |stage|
    ensures Less(stage + "-" + timestamp, NativeName(stage, v, g)) <==>
              Less(stage[cut..] + "-" + timestamp, LowerTail(v, g))
  {
    Shape(stage, v, g);
    var head := stage[..cut];
    LowerPrefix(stage, cut);
    assert Truncate(stage, STAGE_LIMIT) == head;
    assert stage + "-" + timestamp == head + (stage[cut..] + "-" + timestamp);
    CommonPrefix(head, stage[cut..] + "-" + timestamp, LowerTail(v, g));
  }

  lemma LowerPrefix(s: string, n: nat)
    requires Lower(s) == s && n <= |s|
    ensures Lower(s[..n]) == s[..n]
  {
    assert forall i :: 0 <= i < n ==> Lower(s[..n])[i] == LowerChar(s[i]) == Lower(s)[i];
  }
}
