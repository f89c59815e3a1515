/** The certificate template's text logic: the certificate type is split at its first
    space into a large first word and a second line, with defaults for the missing
    props, and the QR block with the certificate ID appears only with a verification
    URL. */
module Certificate {
  import opened Wrappers
  import opened Sequences

  const DefaultCoordinatorTitle := "Coordinador"
  const DefaultCertificateType := "CERTIFICADO DE RECONOCIMIENTO"
  /** The second line shown when the rest of the type is empty. */
  const DefaultSecondLine := "DE RECONOCIMIENTO"
  /** The first word shown when the type's first word is empty. */
  const DefaultFirstWord := "CERTIFICADO"

  /** The props with defaults: a default applies only when the prop is absent. The
      template declares the coordinator title's default but never displays the
      value; it is modelled for completeness of the props. */
  function CoordinatorTitle(coordinatorTitle: Option<string>): (t: string)
    ensures coordinatorTitle.None? ==> t == DefaultCoordinatorTitle
    ensures coordinatorTitle.Some? ==> t == coordinatorTitle.value
  {
    coordinatorTitle.GetOr(DefaultCoordinatorTitle)
  }

  function CertificateType(certificateType: Option<string>): (t: string)
    ensures certificateType.None? ==> t == DefaultCertificateType
    ensures certificateType.Some? ==> t == certificateType.value
  {
    certificateType.GetOr(DefaultCertificateType)
  }

  /** `const [firstWord, ...rest] = certificateType.split(" ")` and
      `rest.join(" ") || "DE RECONOCIMIENTO"`: the text before the first space, and
      the text after it, or the default second line when that is empty. */
  function TitleLines(certificateType: string): (lines: (string, string))
    ensures ' ' !in lines.0
    ensures StartsWith(certificateType, lines.0)
    ensures lines.1 != ""
  {
    var parts := Split(certificateType, ' ');
    var rest := Join(parts[1..], ' ');
    SplitFirst(certificateType);
    (parts[0], if rest == "" then DefaultSecondLine else rest)
  }

  /** The first part of a split and the joined rest give the string back around the
      first separator. */
  lemma SplitFirst(s: string)
    ensures |Split(s, ' ')| == 1 ==> Split(s, ' ')[0] == s
    ensures |Split(s, ' ')| > 1 ==> s == Split(s, ' ')[0] + " " + Join(Split(s, ' ')[1..], ' ')
  {
    JoinSplit(s, ' ');
  }

  /** Whenever the rest is non-empty, the two lines separated by a space are the
      certificate type again. */
  lemma {:induction false} TitleLinesRoundTrip(certificateType: string)
    requires Join(Split(certificateType, ' ')[1..], ' ') != ""
    ensures TitleLines(certificateType).0 + " " + TitleLines(certificateType).1 == certificateType
  {
    SplitFirst(certificateType);
  }

  /** A type without a space is all first word, and the second line is the default. */
  lemma {:induction false} SingleWordTitle(certificateType: string)
    requires ' ' !in certificateType
    ensures TitleLines(certificateType) == (certificateType, DefaultSecondLine)
  {
    SplitJoin([certificateType], ' ');
  }

  /** The second line falls back to the default exactly when the type has no space,
      or its only space is its last character. */
  lemma {:induction false} SecondLineDefaultIff(certificateType: string)
    ensures Join(Split(certificateType, ' ')[1..], ' ') == "" <==>
      ' ' !in certificateType ||
      (certificateType != "" && certificateType[|certificateType| - 1] == ' ' &&
       ' ' !in certificateType[..|certificateType| - 1])
  {
    var s := certificateType;
    var parts := Split(s, ' ');
    SplitFirst(s);
    JoinEmpty(parts[1..], ' ');
    assert |parts| > 1 ==> s[|parts[0]|] == ' ';
    assert |parts| > 1 && parts[1..] == [""] ==> s == parts[0] + " " && s[..|s| - 1] == parts[0];
    if s != [] && s[|s| - 1] == ' ' && ' ' !in s[..|s| - 1] {
      var w := s[..|s| - 1];
      assert s == w + " " + "";
      SplitAfterWord(w, "");
      assert parts[1..] == [""];
    }
  }

  /** Splitting after a word without spaces gives that word, then the split of the
      rest. */
  lemma {:induction false} SplitAfterWord(w: string, t: string)
    requires ' ' !in w
    ensures Split(w + " " + t, ' ') == [w] + Split(t, ' ')
    decreases |w|
  {
    if w == [] {
      assert (" " + t)[1..] == t;
    } else {
      assert (w + " " + t)[1..] == w[1..] + " " + t;
      assert ' ' !in w[1..] by { assert forall c :: c in w[1..] ==> c in w; }
      SplitAfterWord(w[1..], t);
      assert [w[0]] + w[1..] == w;
    }
  }

  /** A word without spaces and a non-empty rest, joined by a space, are split back into
      exactly those two lines. */
  lemma {:induction false} TwoPartTitle(first: string, second: string)
    requires ' ' !in first && second != ""
    ensures TitleLines(first + " " + second) == (first, second)
  {
    SplitAfterWord(first, second);
    var parts := Split(first + " " + second, ' ');
    assert parts[1..] == Split(second, ' ');
    JoinSplit(second, ' ');
  }

  /** The default type gives the default title: "CERTIFICADO" over "DE RECONOCIMIENTO". */
  lemma DefaultTitle()
    ensures TitleLines(CertificateType(None)) == (DefaultFirstWord, DefaultSecondLine)
  {
    assert DefaultCertificateType == DefaultFirstWord + " " + DefaultSecondLine;
    TwoPartTitle(DefaultFirstWord, DefaultSecondLine);
  }

  /** `firstWord || "CERTIFICADO"`: the word shown large, never empty. */
  function DisplayedFirstWord(certificateType: string): (w: string)
    ensures w != ""
    ensures ' ' !in w
  {
    var first := TitleLines(certificateType).0;
    if first == "" then DefaultFirstWord else first
  }

  /** The first word is empty, and the fallback shown, exactly when the type is empty
      or begins with a space. */
  lemma FirstWordEmptyIff(certificateType: string)
    ensures TitleLines(certificateType).0 == "" <==> certificateType == "" || certificateType[0] == ' '
    ensures DisplayedFirstWord(certificateType) == DefaultFirstWord <==>
      TitleLines(certificateType).0 == "" || TitleLines(certificateType).0 == DefaultFirstWord
  {
  }

  /** `Boolean(verificationUrl)`: the QR block is shown for a present, non-empty URL. */
  predicate ShowQR(verificationUrl: Option<string>)
    ensures ShowQR(verificationUrl) <==> verificationUrl.Some? && |verificationUrl.value| > 0
  {
    verificationUrl.Some? && verificationUrl.value != ""
  }

  /** The "ID: …" label inside the QR block, shown for a non-empty certificate ID. */
  function CertificateIdLabel(verificationUrl: Option<string>, certificateId: Option<string>): (idLabel: Option<string>)
    ensures idLabel.Some? <==> ShowQR(verificationUrl) && certificateId.Some? && certificateId.value != ""
    ensures idLabel.Some? ==> StartsWith(idLabel.value, "ID: ") && idLabel.value[4..] == certificateId.value
  {
    if ShowQR(verificationUrl) && certificateId.Some? && certificateId.value != "" then
      Some("ID: " + certificateId.value)
    else None
  }
}
