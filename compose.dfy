/**
 * The two composer forms of the interface: the publish form (content, a
 * mandatory source link and a category) and the comment form (content and
 * an optional link, attached to the publication on the page).  Each form
 * offers its button only when its guard holds; a click sends the `post`
 * arguments and clears the text fields.  Both show a length counter.
 */
module Compose {
  import opened LedgerTypes
  import opened Decimal
  import opened LedgerSteps

  /** The length both text areas allow and the counter shows as the limit. */
  const CounterLimit: nat := 300
  /** From this length on the counter turns orange. */
  const WarnLength: nat := 250
  /** A link is accepted only with this scheme, in any letter case. */
  const SecureScheme: string := "https://"
  /** A link must be strictly longer than this. */
  const MinLinkLength: nat := 10

  // ------------------------------------------------------------ letter case

  /** Lower case on the ASCII letters; every other character is left as it is. */
  function LowerChar(c: char): char {
    if 'A' <= c <= 'Z' then (c as int + 32) as char else c
  }

  function UpperChar(c: char): char {
    if 'a' <= c <= 'z' then (c as int - 32) as char else c
  }

  function ToLower(s: string): (r: string)
    ensures |r| == |s|
    ensures forall i :: 0 <= i < |s| ==> r[i] == LowerChar(s[i])
  {
    seq(|s|, i requires 0 <= i < |s| => LowerChar(s[i]))
  }

  /** Lowering a character gives c exactly when it was c or, for a letter, its capital. */
  lemma LowerCharInverse(x: char, c: char)
    requires LowerChar(c) == c
    ensures LowerChar(x) == c <==> x == c || ('a' <= c <= 'z' && x == UpperChar(c))
  {
  }

  // ------------------------------------------------------------------ links

  /** The link test of both forms: "https://" in any case, and more than 10 characters. */
  predicate HasSecureLink(link: string) {
    SecureScheme <= ToLower(link) && |link| > MinLinkLength
  }

  /**
   * The same test stated character by character: each of the first eight
   * characters is the scheme's, or the capital of a scheme letter.
   */
  lemma SecureLinkCharwise(link: string)
    ensures HasSecureLink(link) <==>
      |link| > MinLinkLength &&
      forall i :: 0 <= i < |SecureScheme| ==>
        link[i] == SecureScheme[i] || link[i] == UpperChar(SecureScheme[i])
  {
    if |link| > MinLinkLength {
      var low := ToLower(link);
      forall i | 0 <= i < |SecureScheme|
        ensures low[i] == SecureScheme[i] <==>
          link[i] == SecureScheme[i] || link[i] == UpperChar(SecureScheme[i])
      {
        LowerCharInverse(link[i], SecureScheme[i]);
      }
      assert SecureScheme <= low <==> forall i :: 0 <= i < |SecureScheme| ==> low[i] == SecureScheme[i];
    }
  }

  // ---------------------------------------------------------------- counter

  datatype Colour = Gray | Orange | Red

  /** The counter colour: gray when empty or short, orange from 250, red from 300. */
  function CounterColour(value: string): Colour {
    if value == "" then Gray
    else if |value| >= WarnLength then (if |value| >= CounterLimit then Red else Orange)
    else Gray
  }

  /** The counter text: the number of characters typed, then "/300". */
  function CounterText(value: string): string {
    ToDecimal(if value == "" then 0 else |value|) + "/300"
  }

  function ColourRank(c: Colour): nat {
    match c
    case Gray => 0
    case Orange => 1
    case Red => 2
  }

  /** Typing more never makes the counter's warning colour milder. */
  lemma CounterColourMonotone(shorter: string, longer: string)
    requires |shorter| <= |longer|
    ensures ColourRank(CounterColour(shorter)) <= ColourRank(CounterColour(longer))
    ensures CounterColour(longer) == Red <==> |longer| >= CounterLimit
    ensures CounterColour(longer) == Orange <==> WarnLength <= |longer| < CounterLimit
  {
  }

  /** The digits before "/300" read back as the number of characters typed. */
  lemma CounterTextShowsLength(value: string)
    ensures var t := CounterText(value);
      && |t| > 4 && t[|t| - 4..] == "/300"
      && AllDigits(t[..|t| - 4])
      && DecimalValue(t[..|t| - 4]) == |value|
  {
    var t := CounterText(value);
    assert t[..|t| - 4] == ToDecimal(|value|);
    DecimalRoundTrip(|value|);
  }

  // ----------------------------------------------------------- post request

  /** The arguments of the four-argument `post` call the forms send. */
  datatype PostArgs = PostArgs(content: string, link: string, category: nat, parentID: nat)

  /** The five entries of the category selector and the number each one sends. */
  datatype CategoryOption = NoCategory | Technology | Politics | Sports | Miscellaneous

  function OptionValue(o: CategoryOption): (n: nat)
    ensures n <= 4
  {
    match o
    case NoCategory => 0
    case Technology => 1
    case Politics => 2
    case Sports => 3
    case Miscellaneous => 4
  }

  // ----------------------------------------------------------- publish form

  datatype PublishForm = PublishForm(value: string, link: string, category: nat)

  const EmptyPublishForm := PublishForm("", "", 0)

  /** The publish button is shown for non-empty content with a secure link. */
  predicate CanPublish(f: PublishForm) {
    f.value != "" && HasSecureLink(f.link)
  }

  datatype ClickResult<F> = ClickResult(form: F, sent: Option<PostArgs>)

  /**
   * A click on the publish button: it exists only while the guard holds;
   * it sends a top-level post in the chosen category and clears both text
   * fields, keeping the category.
   */
  function PublishClick(f: PublishForm): ClickResult<PublishForm> {
    if CanPublish(f) then
      ClickResult(f.(value := "", link := ""), Some(PostArgs(f.value, f.link, f.category, 0)))
    else ClickResult(f, None)
  }

  datatype PublishInput = TypeContent(value: string) | TypeLink(link: string) | Choose(option: CategoryOption) | PressPublish

  function PublishStep(f: PublishForm, input: PublishInput): ClickResult<PublishForm> {
    match input
    case TypeContent(v) => ClickResult(f.(value := v), None)
    case TypeLink(l) => ClickResult(f.(link := l), None)
    case Choose(o) => ClickResult(f.(category := OptionValue(o)), None)
    case PressPublish => PublishClick(f)
  }

  /** The form after a sequence of inputs, and the requests sent on the way, in order. */
  function PublishSession(f: PublishForm, inputs: seq<PublishInput>): (PublishForm, seq<PostArgs>)
    decreases |inputs|
  {
    if inputs == [] then (f, [])
    else
      var r := PublishStep(f, inputs[0]);
      var rest := PublishSession(r.form, inputs[1..]);
      (rest.0, (if r.sent.Some? then [r.sent.value] else []) + rest.1)
  }

  /** What every request of the publish form satisfies. */
  predicate PublishedRequest(a: PostArgs) {
    a.content != "" && HasSecureLink(a.link) && a.category <= 4 && a.parentID == 0
  }

  /** A click sends exactly when the guard holds, and it always leaves both text fields empty. */
  lemma PublishClickSpec(f: PublishForm)
    requires f.category <= 4
    ensures PublishClick(f).sent.Some? <==> CanPublish(f)
    ensures CanPublish(f) ==>
      && PublishClick(f).form == PublishForm("", "", f.category)
      && PublishClick(f).sent.value.content == f.value
      && PublishClick(f).sent.value.link == f.link
      && PublishedRequest(PublishClick(f).sent.value)
  {
  }

  /**
   * Over any session from a form whose category came from the selector,
   * the category stays one of 0..4 and every request sent is a top-level
   * post with content and a secure link.
   */
  lemma {:induction false} PublishSessionRequests(f: PublishForm, inputs: seq<PublishInput>)
    requires f.category <= 4
    ensures PublishSession(f, inputs).0.category <= 4
    ensures forall a :: a in PublishSession(f, inputs).1 ==> PublishedRequest(a)
    decreases |inputs|
  {
    if inputs != [] {
      var r := PublishStep(f, inputs[0]);
      assert r.form.category <= 4;
      PublishSessionRequests(r.form, inputs[1..]);
    }
  }

  /** A request the publish form sends passes the ledger's checks whenever its content fits. */
  lemma PublishedPassesPostCheck(a: PostArgs, publications: map<nat, Publication>)
    requires PublishedRequest(a) && |a.content| <= CounterLimit
    ensures PostCheck(a.content, a.parentID, publications) == Ok
  {
  }

  // ----------------------------------------------------------- comment form

  datatype CommentForm = CommentForm(value: string, link: string)

  const EmptyCommentForm := CommentForm("", "")

  /** The comment button is shown for non-empty content with no link or a secure one. */
  predicate CanComment(f: CommentForm) {
    (f.value != "" && f.link == "") || (f.value != "" && HasSecureLink(f.link))
  }

  /** A click on the comment button sends a comment on `pageID` with category 0 and clears the form. */
  function CommentClick(f: CommentForm, pageID: nat): ClickResult<CommentForm> {
    if CanComment(f) then ClickResult(EmptyCommentForm, Some(PostArgs(f.value, f.link, 0, pageID)))
    else ClickResult(f, None)
  }

  /**
   * The comment guard is the publish guard with the empty link allowed too:
   * with no link it needs only content, and with a link it is exactly the
   * publish test.
   */
  lemma CommentGuardSpec(value: string, link: string, category: nat)
    ensures CanComment(CommentForm(value, "")) <==> value != ""
    ensures link != "" ==> (CanComment(CommentForm(value, link)) <==> CanPublish(PublishForm(value, link, category)))
    ensures CanPublish(PublishForm(value, link, category)) ==> CanComment(CommentForm(value, link))
  {
  }

  /** A comment goes to the page's publication with category 0, and the form is empty afterwards. */
  lemma CommentClickSpec(f: CommentForm, pageID: nat)
    ensures CommentClick(f, pageID).sent.Some? <==> CanComment(f)
    ensures CanComment(f) ==>
      && CommentClick(f, pageID).form == EmptyCommentForm
      && CommentClick(f, pageID).sent.value == PostArgs(f.value, f.link, 0, pageID)
  {
  }

  /**
   * A comment sent from the page of an existing publication passes the
   * ledger's checks whenever its content fits.
   */
  lemma CommentPassesPostCheck(f: CommentForm, pageID: nat, publications: map<nat, Publication>)
    requires CanComment(f) && |f.value| <= CounterLimit && pageID in publications
    ensures var a := CommentClick(f, pageID).sent.value;
      PostCheck(a.content, a.parentID, publications) == Ok
  {
  }
}
