/** Pieces of the RAP loader that do not touch the database: the joining of
    operator-specific texts and the choice of the error section of a fatal
    return. */
module LoaderRap {
  import opened Wrappers
  import opened RapTypes

  const LINE_BREAK: string := "\r\n"
  const MAX_OPERATOR_SPEC_INFO: nat := 1024

  // ---------------------------------------------------------------------------
  // Operator-specific information

  /** The loader's join: a line break goes before a text only when something
      has been written already, so leading empty texts add nothing. */
  function JoinOperatorSpec(items: seq<string>): string
  {
    if items == [] then ""
    else
      var acc := JoinOperatorSpec(items[..|items| - 1]);
      (if |acc| > 0 then acc + LINE_BREAK else acc) + items[|items| - 1]
  }

  /** The usual join with a separator between every two neighbours. */
  function JoinWith(items: seq<string>, sep: string): string
  {
    if |items| == 0 then ""
    else if |items| == 1 then items[0]
    else items[0] + sep + JoinWith(items[1..], sep)
  }

  function Truncate(s: string, n: nat): (r: string)
    ensures |r| <= n && r <= s
    ensures |s| <= n ==> r == s
  {
    if |s| > n then s[..n] else s
  }

  /** The operator-specific text stored with a return: the joined texts cut to
      1024 characters; an absent list gives the empty text. */
  method OperatorSpecInfo(list: Option<seq<string>>) returns (info: string)
    ensures list.None? ==> info == ""
    ensures list.Some? ==> info == Truncate(JoinOperatorSpec(list.value), MAX_OPERATOR_SPEC_INFO)
    ensures |info| <= MAX_OPERATOR_SPEC_INFO
  {
    info := "";
    if list.Some? {
      var items := list.value;
      var i := 0;
      while i < |items|
        invariant 0 <= i <= |items|
        invariant info == JoinOperatorSpec(items[..i])
      {
        assert items[..i + 1][..i] == items[..i];
        if |info| > 0 {
          info := info + LINE_BREAK;
        }
        info := info + items[i];
        i := i + 1;
      }
      assert items[..i] == items;
      if |info| > MAX_OPERATOR_SPEC_INFO {
        info := info[..MAX_OPERATOR_SPEC_INFO];
      }
    }
  }

  lemma JoinWithAppend(items: seq<string>, x: string, sep: string)
    requires |items| >= 1
    ensures JoinWith(items + [x], sep) == JoinWith(items, sep) + sep + x
    decreases |items|
  {
    if |items| == 1 {
      assert (items + [x])[1..] == [x];
    } else {
      assert (items + [x])[1..] == items[1..] + [x];
      JoinWithAppend(items[1..], x, sep);
    }
  }

  /** When every text is non-empty, the loader's join is the ordinary
      "\r\n"-separated join. */
  lemma {:induction false} JoinOperatorSpecNonEmpty(items: seq<string>)
    requires forall k | 0 <= k < |items| :: items[k] != ""
    ensures JoinOperatorSpec(items) == JoinWith(items, LINE_BREAK)
  {
    if |items| >= 1 {
      var init := items[..|items| - 1];
      var last := items[|items| - 1];
      JoinOperatorSpecNonEmpty(init);
      if |init| == 0 {
        assert items == [last];
      } else {
        assert |JoinWith(init, LINE_BREAK)| > 0 by {
          JoinWithHead(init, LINE_BREAK);
        }
        assert items == init + [last];
        JoinWithAppend(init, last, LINE_BREAK);
      }
    }
  }

  lemma JoinWithHead(items: seq<string>, sep: string)
    requires |items| >= 1
    ensures |JoinWith(items, sep)| >= |items[0]|
  {
  }

  /** An empty text before anything has been written leaves the join unchanged
      (later empty texts still add a line break). */
  lemma {:induction false} JoinOperatorSpecSkipsLeadingEmpty(items: seq<string>)
    ensures JoinOperatorSpec([""] + items) == JoinOperatorSpec(items)
  {
    if items == [] {
      assert ([""] + items)[..0] == [];
    } else {
      var init := items[..|items| - 1];
      assert ([""] + items)[..|items|] == [""] + init;
      JoinOperatorSpecSkipsLeadingEmpty(init);
    }
  }

  /** A later empty text still adds a line break. */
  lemma JoinOperatorSpecLaterEmpty(items: seq<string>)
    requires JoinOperatorSpec(items) != ""
    ensures JoinOperatorSpec(items + [""]) == JoinOperatorSpec(items) + LINE_BREAK
  {
    assert (items + [""])[..|items|] == items;
  }

  // ---------------------------------------------------------------------------
  // Fatal return sections

  /** The error sections of a fatal return in the order the loader tests them,
      with the error type it stores for each ("Tranfer" spelled as stored). */
  function FatalSections(f: FatalReturn): (s: seq<(string, Option<seq<ErrorDetail>>)>)
    ensures |s| == 7
  {
    [("Accounting Info", f.accountingInfoError),
     ("Audit Control Info", f.auditControlInfoError),
     ("Batch Control Info", f.batchControlError),
     ("Message Description", f.messageDescriptionError),
     ("Network Info", f.networkInfoError),
     ("Notification", f.notificationError),
     ("Tranfer Batch", f.transferBatchError)]
  }

  /** The error type and detail list of the first present section; None when
      no section is present (the loader then uses an unset list). */
  function FatalErrorSection(f: FatalReturn): (r: Option<(string, seq<ErrorDetail>)>)
    ensures r.None? <==>
      f.accountingInfoError.None? && f.auditControlInfoError.None? && f.batchControlError.None?
      && f.messageDescriptionError.None? && f.networkInfoError.None? && f.notificationError.None?
      && f.transferBatchError.None?
  {
    if f.accountingInfoError.Some? then Some(("Accounting Info", f.accountingInfoError.value))
    else if f.auditControlInfoError.Some? then Some(("Audit Control Info", f.auditControlInfoError.value))
    else if f.batchControlError.Some? then Some(("Batch Control Info", f.batchControlError.value))
    else if f.messageDescriptionError.Some? then Some(("Message Description", f.messageDescriptionError.value))
    else if f.networkInfoError.Some? then Some(("Network Info", f.networkInfoError.value))
    else if f.notificationError.Some? then Some(("Notification", f.notificationError.value))
    else if f.transferBatchError.Some? then Some(("Tranfer Batch", f.transferBatchError.value))
    else None
  }

  /** The section chosen is the first present one in the loader's order. */
  lemma FatalErrorSectionIsFirstPresent(f: FatalReturn, k: nat)
    requires k < 7 && FatalSections(f)[k].1.Some?
    requires forall j | 0 <= j < k :: FatalSections(f)[j].1.None?
    ensures FatalErrorSection(f) == Some((FatalSections(f)[k].0, FatalSections(f)[k].1.value))
  {
    var s := FatalSections(f);
    if k > 0 { assert s[0].1.None?; }
    if k > 1 { assert s[1].1.None?; }
    if k > 2 { assert s[2].1.None?; }
    if k > 3 { assert s[3].1.None?; }
    if k > 4 { assert s[4].1.None?; }
    if k > 5 { assert s[5].1.None?; }
  }
}
