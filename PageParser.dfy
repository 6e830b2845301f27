/** The page parser (`parse` in index.js): from the texts of the page's `<dd>`
    elements to the list of collections to schedule. The HTML itself is not
    modelled: the input is the sequence of `<dd>` texts as cheerio returns them,
    and the natural-language date parser is a parameter. */
module PageParser {
  import opened Dates
  import opened Text

  /** The three collections, in the order of their `<dd>` on the page. */
  datatype BinType = Refuse | Recycling | Garden

  /** The `type` string a collection is scheduled under. */
  function Name(t: BinType): (s: string)
    ensures forall i :: 0 <= i < |s| ==> !IsLineTerminator(s[i])
  {
    match t
    case Refuse => "Refuse"
    case Recycling => "Recycling"
    case Garden => "Garden"
  }

  /** Position of the collection's `<dd>` element on the page. */
  function Position(t: BinType): nat {
    match t
    case Refuse => 0
    case Recycling => 1
    case Garden => 2
  }

  /** One entry of the `todo` list: a collection and the day it falls on. */
  datatype Candidate = Candidate(kind: BinType, date: Moment)

  /** `$('dd').eq(i).text()`: the empty string when the page has no i-th `<dd>`. */
  function DdText(dds: seq<string>, i: nat): string {
    if i < |dds| then dds[i] else ""
  }

  /** The three field texts after clean-up: trimmed, and for garden also
      stripped of its trailing asterisk marker. */
  datatype Fields = Fields(refuse: string, recycling: string, garden: string)

  function CleanFields(dds: seq<string>): Fields {
    Fields(Trim(DdText(dds, 0)), Trim(DdText(dds, 1)), StripStar(Trim(DdText(dds, 2))))
  }

  function FieldOf(f: Fields, t: BinType): string {
    match t
    case Refuse => f.refuse
    case Recycling => f.recycling
    case Garden => f.garden
  }

  /** The cleaned text of a collection's field on the page. */
  function FieldText(dds: seq<string>, t: BinType): string {
    FieldOf(CleanFields(dds), t)
  }

  /** The parser schedules a collection when its cleaned text is non-empty and,
      for garden only, does not mention "N/A". */
  predicate Scheduled(f: Fields, t: BinType) {
    FieldOf(f, t) != "" && (t == Garden ==> IndexOf(FieldOf(f, t), "N/A") == -1)
  }

  predicate Lists(r: seq<Candidate>, t: BinType) {
    exists i :: 0 <= i < |r| && r[i].kind == t
  }

  /** The candidate a collection contributes: one entry dated by parsing its
      cleaned text, or none when it is not scheduled. */
  function Entry(f: Fields, parseDate: string -> Moment, t: BinType): seq<Candidate> {
    if Scheduled(f, t) then [Candidate(t, parseDate(FieldOf(f, t)))] else []
  }

  /** The entries of Refuse, Recycling and Garden, in that order. */
  function Assemble(f: Fields, parseDate: string -> Moment): seq<Candidate> {
    Entry(f, parseDate, Refuse) + Entry(f, parseDate, Recycling) + Entry(f, parseDate, Garden)
  }

  /** What `parse` returns, as a value. */
  function Candidates(dds: seq<string>, parseDate: string -> Moment): seq<Candidate> {
    Assemble(CleanFields(dds), parseDate)
  }

  /** `parse(res)`: reads and cleans the three fields, then builds the
      `todo` list from them. */
  method Parse(dds: seq<string>, parseDate: string -> Moment) returns (todo: seq<Candidate>)
    ensures todo == Candidates(dds, parseDate)
  {
    var refuse := Trim(DdText(dds, 0));
    var recycling := Trim(DdText(dds, 1));
    var garden := StripStar(Trim(DdText(dds, 2)));
    todo := PushScheduled(Fields(refuse, recycling, garden), parseDate);
  }

  /** The conditional pushes of `parse`: refuse and recycling when non-empty,
      garden when non-empty and free of "N/A". */
  method PushScheduled(f: Fields, parseDate: string -> Moment) returns (todo: seq<Candidate>)
    ensures todo == Assemble(f, parseDate)
  {
    todo := [];
    if f.refuse != "" {
      todo := todo + [Candidate(Refuse, parseDate(f.refuse))];
    }
    if f.recycling != "" {
      todo := todo + [Candidate(Recycling, parseDate(f.recycling))];
    }
    if f.garden != "" && IndexOf(f.garden, "N/A") == -1 {
      todo := todo + [Candidate(Garden, parseDate(f.garden))];
    }
  }

  ghost predicate ContainsNA(s: string) {
    exists j :: OccursAt(s, "N/A", j)
  }

  /** A collection is listed exactly when it is scheduled. */
  lemma ListedIffScheduled(f: Fields, parseDate: string -> Moment, t: BinType)
    ensures Lists(Assemble(f, parseDate), t) <==> Scheduled(f, t)
  {
    var a, b := Entry(f, parseDate, Refuse), Entry(f, parseDate, Recycling);
    var r := Assemble(f, parseDate);
    if Scheduled(f, t) {
      var i := match t case Refuse => 0 case Recycling => |a| case Garden => |a| + |b|;
      assert r[i].kind == t;
    }
  }

  /** At most one entry per collection, in page order (Refuse, Recycling, Garden),
      each dated by parsing that collection's cleaned text. */
  lemma CandidatesInPageOrder(f: Fields, parseDate: string -> Moment)
    ensures var r := Assemble(f, parseDate);
      && |r| <= 3
      && (forall i, j :: 0 <= i < j < |r| ==> Position(r[i].kind) < Position(r[j].kind))
      && (forall i :: 0 <= i < |r| ==> r[i].date == parseDate(FieldOf(f, r[i].kind)))
  {
    var a, b, c := Entry(f, parseDate, Refuse), Entry(f, parseDate, Recycling), Entry(f, parseDate, Garden);
    var r := a + b + c;
    assert |a| <= 1 && |b| <= 1 && |c| <= 1;
    forall k | 0 <= k < |r|
      ensures r[k].kind == (if k < |a| then Refuse else if k < |a| + |b| then Recycling else Garden)
      ensures r[k].date == parseDate(FieldOf(f, r[k].kind))
    {
      if k < |a| { assert r[k] == a[k]; }
      else if k < |a| + |b| { assert r[k] == b[k - |a|]; }
      else { assert r[k] == c[k - |a| - |b|]; }
    }
  }

  /** Refuse and recycling are each omitted exactly when their `<dd>` text is
      whitespace only (or missing), whatever the other fields hold. */
  lemma OmittedIffBlank(dds: seq<string>, parseDate: string -> Moment, t: BinType)
    requires t != Garden
    ensures Lists(Candidates(dds, parseDate), t) <==> !AllSpace(DdText(dds, Position(t)))
  {
    ListedIffScheduled(CleanFields(dds), parseDate, t);
    TrimEmptyIffBlank(DdText(dds, Position(t)));
  }

  /** Garden is listed exactly when its cleaned text is non-empty and contains
      no "N/A" anywhere (case-sensitive). */
  lemma GardenListedIff(dds: seq<string>, parseDate: string -> Moment)
    ensures Lists(Candidates(dds, parseDate), Garden)
        <==> FieldText(dds, Garden) != "" && !ContainsNA(FieldText(dds, Garden))
  {
    ListedIffScheduled(CleanFields(dds), parseDate, Garden);
  }

  /** The fields of a page whose three `<dd>` hold "N/A". */
  lemma AllNAFields()
    ensures CleanFields(["N/A", "N/A", "N/A"]) == Fields("N/A", "N/A", "N/A")
  {
    var dds := ["N/A", "N/A", "N/A"];
    assert DdText(dds, 0) == "N/A" && DdText(dds, 1) == "N/A" && DdText(dds, 2) == "N/A";
    TrimFixesTrimmed("N/A");
    StripStarWithoutStar("N/A");
  }

  /** "N/A" only suppresses garden: refuse or recycling text mentioning it is
      still scheduled, dated by parsing that text. */
  lemma NAOnlyAffectsGarden(dds: seq<string>, parseDate: string -> Moment, t: BinType)
    requires t != Garden && ContainsNA(Trim(DdText(dds, Position(t))))
    ensures Lists(Candidates(dds, parseDate), t)
    ensures Entry(CleanFields(dds), parseDate, t) == [Candidate(t, parseDate(Trim(DdText(dds, Position(t)))))]
  {
    var f := CleanFields(dds);
    assert FieldOf(f, t) == Trim(DdText(dds, Position(t)));
    var j :| OccursAt(FieldOf(f, t), "N/A", j);
    assert |FieldOf(f, t)| >= 3;
    ListedIffScheduled(f, parseDate, t);
  }

  /** A page whose three fields hold "N/A" schedules refuse and recycling only. */
  lemma AllNAPage(parseDate: string -> Moment)
    ensures Candidates(["N/A", "N/A", "N/A"], parseDate)
         == [Candidate(Refuse, parseDate("N/A")), Candidate(Recycling, parseDate("N/A"))]
  {
    AllNAFields();
    AllNAScheduled(parseDate);
  }

  lemma AllNAScheduled(parseDate: string -> Moment)
    ensures Assemble(Fields("N/A", "N/A", "N/A"), parseDate)
         == [Candidate(Refuse, parseDate("N/A")), Candidate(Recycling, parseDate("N/A"))]
  {
    assert OccursAt("N/A", "N/A", 0);
  }

  /** Each collection depends on its own `<dd>` alone: the entry it contributes
      is the same whatever the other fields hold. */
  lemma FieldsIndependent(dds: seq<string>, dds': seq<string>, parseDate: string -> Moment, t: BinType)
    requires DdText(dds, Position(t)) == DdText(dds', Position(t))
    ensures Entry(CleanFields(dds), parseDate, t) == Entry(CleanFields(dds'), parseDate, t)
    ensures Lists(Candidates(dds, parseDate), t) <==> Lists(Candidates(dds', parseDate), t)
  {
    assert FieldText(dds, t) == FieldText(dds', t);
    ListedIffScheduled(CleanFields(dds), parseDate, t);
    ListedIffScheduled(CleanFields(dds'), parseDate, t);
  }

  /** A trailing `*` on the garden field, with or without whitespace before it,
      does not change what is scheduled. */
  lemma GardenMarkerIgnored(r0: string, r1: string, g: string, w: string, parseDate: string -> Moment)
    requires g != [] && !IsSpace(g[0]) && !IsSpace(g[|g| - 1]) && g[|g| - 1] != '*'
    requires AllSpace(w)
    ensures Candidates([r0, r1, g + w + "*"], parseDate) == Candidates([r0, r1, g], parseDate)
  {
    var s := g + w + "*";
    assert s[0] == g[0];
    TrimFixesTrimmed(s);
    TrimFixesTrimmed(g);
    StripStarRecovers(g, w);
    assert FieldText([r0, r1, g + w + "*"], Garden) == FieldText([r0, r1, g], Garden);
  }

  /** A refuse or recycling field with any non-blank text yields one entry,
      dated by parsing the trimmed text. */
  lemma FilledFieldScheduled(dds: seq<string>, parseDate: string -> Moment, t: BinType)
    requires t != Garden && !AllSpace(DdText(dds, Position(t)))
    ensures Entry(CleanFields(dds), parseDate, t) == [Candidate(t, parseDate(Trim(DdText(dds, Position(t)))))]
  {
    TrimEmptyIffBlank(DdText(dds, Position(t)));
  }

  /** A blank (or missing) field yields no entry, for every collection. */
  lemma BlankFieldOmitted(dds: seq<string>, parseDate: string -> Moment, t: BinType)
    requires AllSpace(DdText(dds, Position(t)))
    ensures Entry(CleanFields(dds), parseDate, t) == []
  {
    TrimEmptyIffBlank(DdText(dds, Position(t)));
  }

  /** Garden text mentioning "N/A" yields no entry. */
  lemma GardenNAOmitted(dds: seq<string>, parseDate: string -> Moment)
    requires ContainsNA(FieldText(dds, Garden))
    ensures Entry(CleanFields(dds), parseDate, Garden) == []
  {
  }

  /** The garden text "N/A *" loses its marker. */
  lemma NAMarkerStripped()
    ensures StripStar("N/A *") == "N/A"
  {
    assert "N/A *"[..4] == "N/A ";
    assert "N/A "[..3] == "N/A";
  }

  /** The fields of a page holding a refuse date, an empty recycling field
      and "N/A *" for garden. */
  lemma RefuseOnlyFields(refuse: string)
    ensures CleanFields([refuse, "", "N/A *"]) == Fields(Trim(refuse), "", "N/A")
  {
    var dds := [refuse, "", "N/A *"];
    assert DdText(dds, 0) == refuse && DdText(dds, 1) == "" && DdText(dds, 2) == "N/A *";
    TrimFixesTrimmed("N/A *");
    NAMarkerStripped();
  }

  /** A page with a refuse date, an empty recycling field and "N/A *" for
      garden (as in "Monday 3rd June", "", "N/A *") schedules refuse only. */
  lemma RefuseOnlyScenario(refuse: string, parseDate: string -> Moment)
    requires !AllSpace(refuse)
    ensures Candidates([refuse, "", "N/A *"], parseDate) == [Candidate(Refuse, parseDate(Trim(refuse)))]
  {
    RefuseOnlyFields(refuse);
    TrimEmptyIffBlank(refuse);
    assert OccursAt("N/A", "N/A", 0);
    OnlyRefuseScheduled(Fields(Trim(refuse), "", "N/A"), parseDate);
    assert Candidates([refuse, "", "N/A *"], parseDate) == Assemble(Fields(Trim(refuse), "", "N/A"), parseDate);
  }

  /** Fields with refuse text, no recycling text and garden text mentioning
      "N/A" schedule refuse alone. */
  lemma OnlyRefuseScheduled(f: Fields, parseDate: string -> Moment)
    requires f.refuse != "" && f.recycling == "" && ContainsNA(f.garden)
    ensures Assemble(f, parseDate) == [Candidate(Refuse, parseDate(f.refuse))]
  {
  }
}
