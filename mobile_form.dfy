/** The add/edit-mobile form of `submitMobile`: the IMEI list read from the
    text area, and the check that blocks a submission without IMEIs. */
module MobileForm {
  import opened Wrappers
  import opened JsBuiltins
  import opened Seqs

  /** `imei.trim() !== ''` */
  predicate NonBlank(line: string)
  {
    Trim(line) != []
  }

  /** `text.split('\n').filter(imei => imei.trim() !== '')`: every IMEI is
      a non-blank line and holds no line break. */
  function ImeiList(text: string): (imeis: seq<string>)
    ensures forall i :: 0 <= i < |imeis| ==> NonBlank(imeis[i]) && '\n' !in imeis[i]
  {
    var lines := Split(text, '\n');
    var imeis := Filter(NonBlank, lines);
    KeptLinesWellFormed(lines, imeis);
    imeis
  }

  lemma KeptLinesWellFormed(lines: seq<string>, imeis: seq<string>)
    requires forall i :: 0 <= i < |lines| ==> '\n' !in lines[i]
    requires forall x :: x in imeis ==> x in lines && NonBlank(x)
    ensures forall i :: 0 <= i < |imeis| ==> NonBlank(imeis[i]) && '\n' !in imeis[i]
  {
    forall i | 0 <= i < |imeis| ensures NonBlank(imeis[i]) && '\n' !in imeis[i] {
      assert imeis[i] in imeis;
      var j :| 0 <= j < |lines| && lines[j] == imeis[i];
    }
  }

  datatype MobileRecord = MobileRecord(setName: string, variant: string, price: real, imeis: seq<string>)

  datatype MobileError = NoImei

  /** The record `submitMobile` sends, or the error that stops it before any call. */
  function SubmitMobile(setName: string, variant: string, price: Option<real>, imeiText: string): (r: Result<MobileRecord, MobileError>)
    ensures r.Failure? <==> ImeiList(imeiText) == []
    ensures r.Success? ==> r.value.imeis != [] && r.value.setName == setName && r.value.variant == variant
  {
    var imeis := ImeiList(imeiText);
    if |imeis| == 0 then Failure(NoImei)
    else Success(MobileRecord(setName, variant, FloatOrZero(price), imeis))
  }

  /** The list holds exactly the non-blank lines, verbatim and in order, each
      as many times as it occurs in the text. */
  lemma ImeiListIsNonBlankLines(text: string)
    ensures IsSubsequence(ImeiList(text), Split(text, '\n'))
    ensures forall x :: multiset(ImeiList(text))[x] ==
                        (if NonBlank(x) then multiset(Split(text, '\n'))[x] else 0)
    ensures forall x :: x in ImeiList(text) ==> x in Split(text, '\n') && NonBlank(x)
    ensures forall line :: line in Split(text, '\n') && NonBlank(line) ==> line in ImeiList(text)
  {
    FilterIsSubsequence(NonBlank, Split(text, '\n'));
    FilterMultiset(NonBlank, Split(text, '\n'));
  }

  predicate AllBlank(ps: seq<string>)
  {
    forall i :: 0 <= i < |ps| ==> IsBlank(ps[i])
  }

  lemma AllBlankCons(x: string, ps: seq<string>)
    ensures AllBlank([x] + ps) <==> IsBlank(x) && AllBlank(ps)
  {
    var t := [x] + ps;
    if AllBlank(t) {
      assert IsBlank(t[0]);
      forall i | 0 <= i < |ps| ensures IsBlank(ps[i]) { assert ps[i] == t[i + 1]; }
    }
    if IsBlank(x) && AllBlank(ps) {
      forall i | 0 <= i < |t| ensures IsBlank(t[i]) { if i > 0 { assert t[i] == ps[i - 1]; } }
    }
  }

  /** With a white-space separator, every piece is blank exactly when the whole string is. */
  lemma {:induction false} AllPiecesBlank(s: string, sep: char)
    requires IsJsWhiteSpace(sep)
    ensures AllBlank(Split(s, sep)) <==> IsBlank(s)
    decreases |s|
  {
    if s != [] {
      AllPiecesBlank(s[1..], sep);
      var rest := Split(s[1..], sep);
      assert s == [s[0]] + s[1..];
      IsBlankCons(s[0], s[1..]);
      if s[0] == sep {
        AllBlankCons([], rest);
      } else {
        AllBlankCons([s[0]] + rest[0], rest[1..]);
        IsBlankCons(s[0], rest[0]);
        AllBlankCons(rest[0], rest[1..]);
        assert [rest[0]] + rest[1..] == rest;
      }
    }
  }

  /** No IMEI is found exactly when the whole text is white space (line breaks
      included). */
  lemma {:induction false} ImeiListEmptyIffBlank(imeiText: string)
    ensures ImeiList(imeiText) == [] <==> IsBlank(imeiText)
  {
    var lines := Split(imeiText, '\n');
    FilterEmptyIff(NonBlank, lines);
    assert (forall i :: 0 <= i < |lines| ==> !NonBlank(lines[i])) <==> AllBlank(lines);
    AllPiecesBlank(imeiText, '\n');
  }

  /** The submission is blocked exactly when the text area is all white space. */
  lemma {:induction false} SubmitRejectedIffBlank(setName: string, variant: string, price: Option<real>, imeiText: string)
    ensures SubmitMobile(setName, variant, price, imeiText) == Failure(NoImei) <==> IsBlank(imeiText)
  {
    ImeiListEmptyIffBlank(imeiText);
  }

  /** A successful submission carries the form's fields, the coerced price and the IMEI list. */
  lemma SubmitAccepted(setName: string, variant: string, price: Option<real>, imeiText: string)
    requires !IsBlank(imeiText)
    ensures SubmitMobile(setName, variant, price, imeiText) ==
      Success(MobileRecord(setName, variant, FloatOrZero(price), ImeiList(imeiText)))
  {
    SubmitRejectedIffBlank(setName, variant, price, imeiText);
  }

  /** The edit dialog fills the text area with `imeis.join('\n')`; submitting it
      unchanged gives the same IMEIs back when none is blank or holds a line break. */
  lemma {:induction false} EditRoundTrip(imeis: seq<string>)
    requires forall i :: 0 <= i < |imeis| ==> '\n' !in imeis[i] && Trim(imeis[i]) != []
    ensures ImeiList(Join(imeis, '\n')) == imeis
  {
    if imeis != [] {
      JoinThenSplit(imeis, '\n');
      FilterKeepsAll(NonBlank, imeis);
    }
  }
}
