/**
 * The proposal page: the form record, its single-field update, the proposal text
 * built from the form by a template, and the name the downloaded file gets.
 *
 * A template literal is a list of fixed pieces with one interpolated value
 * between each neighbouring pair; the proposal is modelled exactly so, as the
 * fixed pieces of the page's template filled with the values computed from the
 * form. String upper-casing is a parameter (its Unicode case mapping is not
 * modelled) and the clock reading is a parameter.
 */
module ProposalPage {

  // ---------------------------------------------------------------------------
  // The form
  // ---------------------------------------------------------------------------

  /** The input names of the form's six fields. */
  datatype Field = ClientName | ProjectTitle | ProjectDescription | Budget | Timeline | Deliverables

  datatype FormData = FormData(
    clientName: string,
    projectTitle: string,
    projectDescription: string,
    budget: string,
    timeline: string,
    deliverables: string)

  /** Every field starts empty. */
  const InitialForm: FormData := FormData("", "", "", "", "", "")

  /** The value the form holds for field `f`. */
  function Get(data: FormData, f: Field): string {
    match f
    case ClientName => data.clientName
    case ProjectTitle => data.projectTitle
    case ProjectDescription => data.projectDescription
    case Budget => data.budget
    case Timeline => data.timeline
    case Deliverables => data.deliverables
  }

  /** Two forms holding the same value in every field are the same form. */
  lemma FormExtensionality(a: FormData, b: FormData)
    requires forall f :: Get(a, f) == Get(b, f)
    ensures a == b
  {
    assert Get(a, ClientName) == Get(b, ClientName);
    assert Get(a, ProjectTitle) == Get(b, ProjectTitle);
    assert Get(a, ProjectDescription) == Get(b, ProjectDescription);
    assert Get(a, Budget) == Get(b, Budget);
    assert Get(a, Timeline) == Get(b, Timeline);
    assert Get(a, Deliverables) == Get(b, Deliverables);
  }

  /** A change event on the input named `f`: that field takes the new value, every other keeps its own. */
  function HandleInputChange(data: FormData, f: Field, value: string): (r: FormData)
    ensures Get(r, f) == value
    ensures forall g :: g != f ==> Get(r, g) == Get(data, g)
  {
    match f
    case ClientName => data.(clientName := value)
    case ProjectTitle => data.(projectTitle := value)
    case ProjectDescription => data.(projectDescription := value)
    case Budget => data.(budget := value)
    case Timeline => data.(timeline := value)
    case Deliverables => data.(deliverables := value)
  }

  /** Of two changes to the same field only the later one is visible. */
  lemma LaterChangeWins(data: FormData, f: Field, v1: string, v2: string)
    ensures HandleInputChange(HandleInputChange(data, f, v1), f, v2) == HandleInputChange(data, f, v2)
  {
    FormExtensionality(HandleInputChange(HandleInputChange(data, f, v1), f, v2), HandleInputChange(data, f, v2));
  }

  /** Changes to different fields do not interfere: their order does not matter. */
  lemma ChangesToDifferentFieldsCommute(data: FormData, f: Field, v: string, g: Field, w: string)
    requires f != g
    ensures HandleInputChange(HandleInputChange(data, f, v), g, w)
            == HandleInputChange(HandleInputChange(data, g, w), f, v)
  {
    FormExtensionality(HandleInputChange(HandleInputChange(data, f, v), g, w),
                       HandleInputChange(HandleInputChange(data, g, w), f, v));
  }

  /** Writing back the value a field already holds leaves the form as it was. */
  lemma UnchangedValueIsNoOp(data: FormData, f: Field)
    ensures HandleInputChange(data, f, Get(data, f)) == data
  {
    FormExtensionality(HandleInputChange(data, f, Get(data, f)), data);
  }

  // ---------------------------------------------------------------------------
  // Template filling
  // ---------------------------------------------------------------------------

  /** A template literal: the fixed pieces with `values[i]` between `pieces[i]` and `pieces[i + 1]`. */
  function Fill(pieces: seq<string>, values: seq<string>): string
    requires |pieces| == |values| + 1
    decreases |values|
  {
    if values == [] then pieces[0]
    else pieces[0] + values[0] + Fill(pieces[1..], values[1..])
  }

  /** A filled template ends with its last value and its last piece, after the template filled up to them. */
  lemma {:induction false} FillLast(pieces: seq<string>, values: seq<string>)
    requires |pieces| == |values| + 1 && |values| >= 1
    ensures Fill(pieces, values)
            == Fill(pieces[..|values|], values[..|values| - 1]) + values[|values| - 1] + pieces[|values|]
  {
    var n := |values|;
    if n > 1 {
      FillLast(pieces[1..], values[1..]);
      assert pieces[..n][1..] == pieces[1..][..n - 1];
      assert values[..n - 1][1..] == values[1..][..n - 2];
      var mid := Fill(pieces[1..][..n - 1], values[1..][..n - 2]);
      calc {
        Fill(pieces, values);
        pieces[0] + values[0] + Fill(pieces[1..], values[1..]);
        pieces[0] + values[0] + (mid + values[n - 1] + pieces[n]);
        (pieces[0] + values[0] + mid) + values[n - 1] + pieces[n];
        Fill(pieces[..n], values[..n - 1]) + values[n - 1] + pieces[n];
      }
    } else {
      assert values[..0] == [];
    }
  }

  /** A filled template ends with its last value framed by the two pieces around it. */
  lemma FillEndsWithLastValue(pieces: seq<string>, values: seq<string>)
    requires |pieces| == |values| + 1 && |values| >= 1
    ensures var n := |values|;
      var tail := pieces[n - 1] + values[n - 1] + pieces[n];
      var p := Fill(pieces, values);
      |tail| <= |p| && p[|p| - |tail|..] == tail
  {
    var n := |values|;
    FillLast(pieces, values);
    var before: string;
    if n > 1 {
      FillLast(pieces[..n], values[..n - 1]);
      before := Fill(pieces[..n][..n - 1], values[..n - 1][..n - 2]) + values[n - 2];
    } else {
      before := [];
    }
    assert Fill(pieces[..n], values[..n - 1]) == before + pieces[n - 1];
    var tail := pieces[n - 1] + values[n - 1] + pieces[n];
    assert Fill(pieces, values) == before + tail;
  }

  /** A filled template is the part up to piece `i`, then value `i`, then the part from piece `i + 1` on. */
  lemma {:induction false} FillSplit(pieces: seq<string>, values: seq<string>, i: nat)
    requires |pieces| == |values| + 1 && i < |values|
    ensures Fill(pieces, values)
            == Fill(pieces[..i + 1], values[..i]) + values[i] + Fill(pieces[i + 1..], values[i + 1..])
  {
    if i == 0 {
      assert values[..0] == [];
      assert pieces[..1][0] == pieces[0];
    } else {
      var p1, v1 := pieces[1..], values[1..];
      FillSplit(p1, v1, i - 1);
      assert pieces[..i + 1][1..] == p1[..i];
      assert values[..i][1..] == v1[..i - 1];
      assert p1[i..] == pieces[i + 1..];
      assert v1[i..] == values[i + 1..];
      calc {
        Fill(pieces, values);
        pieces[0] + values[0] + Fill(p1, v1);
        pieces[0] + values[0] + (Fill(p1[..i], v1[..i - 1]) + values[i] + Fill(pieces[i + 1..], values[i + 1..]));
        (pieces[0] + values[0] + Fill(p1[..i], v1[..i - 1])) + values[i] + Fill(pieces[i + 1..], values[i + 1..]);
        Fill(pieces[..i + 1], values[..i]) + values[i] + Fill(pieces[i + 1..], values[i + 1..]);
      }
    }
  }

  /** Where value `i` starts in the filled template: after everything up to and including piece `i`. */
  function ValueOffset(pieces: seq<string>, values: seq<string>, i: nat): nat
    requires |pieces| == |values| + 1 && i < |values|
  {
    |Fill(pieces[..i + 1], values[..i])|
  }

  /**
   * In a filled template value `i` stands at its offset, immediately preceded by
   * piece `i` and immediately followed by piece `i + 1`.
   */
  lemma FillValueInPlace(pieces: seq<string>, values: seq<string>, i: nat)
    requires |pieces| == |values| + 1 && i < |values|
    ensures var text, at := Fill(pieces, values), ValueOffset(pieces, values, i);
      var after := at + |values[i]|;
      && |pieces[i]| <= at && after + |pieces[i + 1]| <= |text|
      && text[at - |pieces[i]|..at] == pieces[i]
      && text[at..after] == values[i]
      && text[after..after + |pieces[i + 1]|] == pieces[i + 1]
  {
    var front := FillEndsWithPiece(pieces[..i + 1], values[..i]);
    var restTail := FillStartsWithPiece(pieces[i + 1..], values[i + 1..]);
    FillSplit(pieces, values, i);
    assert Fill(pieces, values) == front + pieces[i] + values[i] + pieces[i + 1] + restTail;
    ConcatenationParts(front, pieces[i], values[i], pieces[i + 1], restTail);
    assert ValueOffset(pieces, values, i) == |front| + |pieces[i]|;
  }

  /** A filled template ends with its last piece. */
  lemma FillEndsWithPiece(pieces: seq<string>, values: seq<string>) returns (front: string)
    requires |pieces| == |values| + 1
    ensures Fill(pieces, values) == front + pieces[|values|]
  {
    var n := |values|;
    if n == 0 {
      front := [];
    } else {
      FillLast(pieces, values);
      front := Fill(pieces[..n], values[..n - 1]) + values[n - 1];
    }
  }

  /** A filled template starts with its first piece. */
  lemma FillStartsWithPiece(pieces: seq<string>, values: seq<string>) returns (rest: string)
    requires |pieces| == |values| + 1
    ensures Fill(pieces, values) == pieces[0] + rest
  {
    if values == [] {
      rest := [];
    } else {
      rest := values[0] + Fill(pieces[1..], values[1..]);
    }
  }

  /** A filled template with at least one value starts with its first piece and ends with its last. */
  lemma FillFrame(pieces: seq<string>, values: seq<string>)
    requires |pieces| == |values| + 1 && |values| >= 1
    ensures pieces[0] <= Fill(pieces, values)
    ensures EndsWith(Fill(pieces, values), pieces[|pieces| - 1])
    ensures |pieces[0]| + |pieces[|pieces| - 1]| <= |Fill(pieces, values)|
  {
    var text, last := Fill(pieces, values), pieces[|pieces| - 1];
    var front := FillEndsWithPiece(pieces, values);
    var rest := values[0] + Fill(pieces[1..], values[1..]);
    assert text == pieces[0] + rest;
    var middle := FillEndsWithPiece(pieces[1..], values[1..]);
    assert pieces[1..][|values| - 1] == last;
    assert |text| == |pieces[0]| + |values[0]| + |middle| + |last|;
    PrefixOfConcatenation(pieces[0], rest);
    SuffixOfConcatenation(front, last);
  }

  /** A filled template with at least two values opens with its first piece, first value and second piece. */
  lemma FillOpening(pieces: seq<string>, values: seq<string>)
    requires |pieces| == |values| + 1 && |values| >= 2
    ensures pieces[0] + values[0] + pieces[1] <= Fill(pieces, values)
  {
    var f1, f2 := Fill(pieces[1..], values[1..]), Fill(pieces[2..], values[2..]);
    assert pieces[1..][1..] == pieces[2..] && values[1..][1..] == values[2..];
    assert f1 == pieces[1] + values[1] + f2;
    PrefixOfConcatenation(pieces[1], values[1]);
    PrefixOfConcatenation(pieces[1] + values[1], f2);
    PrefixTransitive(pieces[1], pieces[1] + values[1], f1);
    PrefixAfterSameStart(pieces[0] + values[0], pieces[1], f1);
  }

  /** `suffix` is the tail end of `s`. */
  predicate EndsWith(s: string, suffix: string) {
    |suffix| <= |s| && s[|s| - |suffix|..] == suffix
  }

  /** A sequence is a prefix of itself followed by anything. */
  lemma PrefixOfConcatenation(a: string, b: string)
    ensures a <= a + b
  {
  }

  /** Being a prefix is transitive. */
  lemma PrefixTransitive(a: string, b: string, c: string)
    requires a <= b && b <= c
    ensures a <= c
  {
  }

  /** Putting the same front before both sides keeps a prefix a prefix. */
  lemma PrefixAfterSameStart(a: string, b: string, c: string)
    requires b <= c
    ensures a + b <= a + c
  {
    assert (a + c)[..|a + b|] == a + c[..|b|];
  }

  /** A sequence ends with whatever was appended last. */
  lemma SuffixOfConcatenation(a: string, b: string)
    ensures EndsWith(a + b, b)
  {
    assert (a + b)[|a|..] == b;
  }

  /** Where each of the five parts of `a + b + c + d + e` sits. */
  lemma ConcatenationParts<T>(a: seq<T>, b: seq<T>, c: seq<T>, d: seq<T>, e: seq<T>)
    ensures var t := a + b + c + d + e;
      var i, j, k := |a|, |a| + |b|, |a| + |b| + |c|;
      && |t| == k + |d| + |e|
      && t[..i] == a && t[i..j] == b && t[j..k] == c && t[k..k + |d|] == d && t[k + |d|..] == e
  {
    var t := a + b + c + d + e;
    assert t == a + (b + (c + (d + e)));
  }

  /** What `s || fallback` yields for a string: the string unless it is empty. */
  function OrElse(s: string, fallback: string): string {
    if s != "" then s else fallback
  }

  const DescriptionDefault: string := "Project description will be detailed here based on your requirements."
  const DeliverablesDefault: string := "\U{2022} Detailed deliverables will be specified based on project requirements"
  const TimelineDefault: string := "Project timeline will be determined based on scope and requirements"
  const InvestmentDefault: string := "Investment details will be provided based on project scope"

  /** The investment line: the budget with its label, or the fallback sentence when there is no budget. */
  function InvestmentLine(budget: string): string {
    if budget != "" then "Total Investment: " + budget else InvestmentDefault
  }

  /** Everything after the last interpolated value. */
  const Closing: string :=
    "\n\nNEXT STEPS\n\n"
    + "1. Review and approval of this proposal\n"
    + "2. Contract signing and project kickoff\n"
    + "3. Regular progress updates and milestone reviews\n\n"
    + "We look forward to partnering with you on this exciting project.\n\n"
    + "Best regards,\nYour Team"

  /** The fixed text of the proposal template, in order. */
  const ProposalPieces: seq<string> := [
    "PROPOSAL FOR ",
    "\n\nProject Title: ",
    "\n\nEXECUTIVE SUMMARY\n\nThis proposal outlines our approach to deliver ",
    " for ",
    ". We are committed to providing exceptional value and ensuring project success "
      + "through our proven methodology and expertise.\n\nPROJECT OVERVIEW\n\n",
    "\n\nSCOPE OF WORK\n\nOur comprehensive approach includes:\n",
    "\n\nTIMELINE\n\n",
    "\n\nINVESTMENT\n\n",
    Closing
  ]

  /** The eight values interpolated into the template, in order; `upper` stands for upper-casing. */
  function ProposalValues(data: FormData, upper: string -> string): (r: seq<string>)
    ensures |r| + 1 == |ProposalPieces|
    ensures forall k :: 0 <= k < |r| ==> r[k] != ""
  {
    [ OrElse(upper(data.clientName), "CLIENT"),
      OrElse(data.projectTitle, "Untitled Project"),
      OrElse(data.projectTitle, "your project"),
      OrElse(data.clientName, "your organization"),
      OrElse(data.projectDescription, DescriptionDefault),
      OrElse(data.deliverables, DeliverablesDefault),
      OrElse(data.timeline, TimelineDefault),
      InvestmentLine(data.budget) ]
  }

  /** The mock proposal for a form. */
  function GenerateMockProposal(data: FormData, upper: string -> string): (r: string)
    ensures ProposalPieces[0] <= r
    ensures EndsWith(r, ProposalPieces[|ProposalPieces| - 1])
  {
    FillFrame(ProposalPieces, ProposalValues(data, upper));
    Fill(ProposalPieces, ProposalValues(data, upper))
  }

  /** Upper-casing, as JavaScript does it, empties a string only when it was already empty. */
  ghost predicate KeepsEmptiness(upper: string -> string) {
    forall s :: upper(s) == "" <==> s == ""
  }

  // ---------------------------------------------------------------------------
  // Properties of the proposal
  // ---------------------------------------------------------------------------

  /**
   * Every interpolated field is replaced by its default exactly when it is empty;
   * any other value, blank ones included, appears as typed.
   */
  lemma FieldsDefaultExactlyWhenEmpty(data: FormData, upper: string -> string)
    requires KeepsEmptiness(upper)
    ensures var v := ProposalValues(data, upper);
      && (data.clientName == "" ==> v[0] == "CLIENT")
      && (data.clientName != "" ==> v[0] == upper(data.clientName))
      && (data.projectTitle == "" ==> v[1] == "Untitled Project" && v[2] == "your project")
      && (data.projectTitle != "" ==> v[1] == data.projectTitle && v[2] == data.projectTitle)
      && (data.clientName == "" ==> v[3] == "your organization")
      && (data.clientName != "" ==> v[3] == data.clientName)
      && v[4] == (if data.projectDescription == "" then DescriptionDefault else data.projectDescription)
      && v[5] == (if data.deliverables == "" then DeliverablesDefault else data.deliverables)
      && v[6] == (if data.timeline == "" then TimelineDefault else data.timeline)
  {
  }

  /** The proposal opens with the client's name in capitals, or CLIENT when there is none, then the title label. */
  lemma ProposalOpensWithClient(data: FormData, upper: string -> string)
    requires KeepsEmptiness(upper)
    ensures "PROPOSAL FOR " + (if data.clientName == "" then "CLIENT" else upper(data.clientName))
            + "\n\nProject Title: " <= GenerateMockProposal(data, upper)
  {
    FillOpening(ProposalPieces, ProposalValues(data, upper));
  }

  /**
   * The proposal closes with the investment section (the budget with its label,
   * or the fallback sentence) followed by the fixed next steps and sign-off.
   */
  lemma ProposalClosesWithInvestment(data: FormData, upper: string -> string)
    ensures var tail := "\n\nINVESTMENT\n\n" + InvestmentLine(data.budget) + Closing;
      var p := GenerateMockProposal(data, upper);
      |tail| <= |p| && p[|p| - |tail|..] == tail
  {
    var pieces, values := ProposalPieces, ProposalValues(data, upper);
    FillEndsWithLastValue(pieces, values);
    assert pieces[7] + values[7] + pieces[8] == "\n\nINVESTMENT\n\n" + InvestmentLine(data.budget) + Closing;
  }

  /**
   * Each of the eight values sits in the proposal between the two fixed pieces
   * of the template around it: every piece and every value occurs, in order.
   */
  lemma ProposalValueInPlace(data: FormData, upper: string -> string, i: nat)
    requires i < 8
    ensures var text := GenerateMockProposal(data, upper);
      var v, at := ProposalValues(data, upper)[i], ValueOffset(ProposalPieces, ProposalValues(data, upper), i);
      && |ProposalPieces[i]| <= at && at + |v| + |ProposalPieces[i + 1]| <= |text|
      && text[at - |ProposalPieces[i]|..at] == ProposalPieces[i]
      && text[at..at + |v|] == v
      && text[at + |v|..at + |v| + |ProposalPieces[i + 1]|] == ProposalPieces[i + 1]
  {
    FillValueInPlace(ProposalPieces, ProposalValues(data, upper), i);
  }

  /** A blank form yields the all-defaults proposal. */
  lemma InitialFormProposal(upper: string -> string)
    requires upper("") == ""
    ensures GenerateMockProposal(InitialForm, upper)
            == Fill(ProposalPieces, ["CLIENT", "Untitled Project", "your project", "your organization",
                                     DescriptionDefault, DeliverablesDefault, TimelineDefault, InvestmentDefault])
  {
  }

  // ---------------------------------------------------------------------------
  // The download file name
  // ---------------------------------------------------------------------------

  function DigitChar(d: nat): char
    requires d < 10
  {
    ('0' as int + d) as char
  }

  function DigitValue(c: char): nat {
    if '0' <= c <= '9' then (c as int - '0' as int) as nat else 0
  }

  /** The decimal numeral of `n`, as a whole number is written out by JavaScript: no sign, no leading zero. */
  function Decimal(n: nat): (r: string)
    ensures |r| >= 1 && (r[0] == '0' ==> n == 0)
    ensures forall k :: 0 <= k < |r| ==> '0' <= r[k] <= '9'
  {
    if n < 10 then [DigitChar(n)] else Decimal(n / 10) + [DigitChar(n % 10)]
  }

  /** The value of a string of decimal digits. */
  function ParseDecimal(s: string): nat {
    if s == [] then 0 else ParseDecimal(s[..|s| - 1]) * 10 + DigitValue(s[|s| - 1])
  }

  /** Reading a numeral back gives the number written. */
  lemma {:induction false} DecimalRoundTrip(n: nat)
    ensures ParseDecimal(Decimal(n)) == n
  {
    var r := Decimal(n);
    var last := DigitChar(n % 10);
    assert DigitValue(last) == n % 10;
    if n >= 10 {
      var front := Decimal(n / 10);
      assert r == front + [last];
      assert r[..|r| - 1] == front;
      DecimalRoundTrip(n / 10);
      assert ParseDecimal(r) == (n / 10) * 10 + n % 10;
    } else {
      assert r == [last];
      assert ParseDecimal(r) == ParseDecimal([]) * 10 + DigitValue(last);
    }
  }

  /** The name the downloaded proposal gets, from the client's name and the clock reading in milliseconds. */
  function DownloadFilename(clientName: string, now: nat): (r: string)
    ensures |"proposal-"| + 1 + 1 + 1 + |".txt"| <= |r|
    ensures r[..|"proposal-"|] == "proposal-"
    ensures r[|r| - |".txt"|..] == ".txt"
  {
    "proposal-" + OrElse(clientName, "client") + "-" + Decimal(now) + ".txt"
  }

  /**
   * The file name is `proposal-<client name, or "client" when empty>-<timestamp>.txt`, and the
   * digits between the last dash and the extension read back as the timestamp.
   */
  lemma DownloadFilenameShape(clientName: string, now: nat)
    ensures var name := DownloadFilename(clientName, now);
      var stamp := Decimal(now);
      && |name| == |"proposal-"| + |OrElse(clientName, "client")| + 1 + |stamp| + 4
      && name[..9] == "proposal-"
      && name[9..9 + |OrElse(clientName, "client")|] == OrElse(clientName, "client")
      && name[9 + |OrElse(clientName, "client")|] == '-'
      && name[|name| - 4..] == ".txt"
      && name[|name| - 4 - |stamp| - 1] == '-'
      && ParseDecimal(name[|name| - 4 - |stamp|..|name| - 4]) == now
      && (clientName == "" ==> name[9..16] == "client-")
  {
    var client, stamp := OrElse(clientName, "client"), Decimal(now);
    ConcatenationParts("proposal-", client, "-", stamp, ".txt");
    DecimalRoundTrip(now);
  }
}
