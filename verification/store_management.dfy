/** The clear-cache button of the storage screen
    (`view/fragments/StoreManagementFragment.kt`, `setUpClearCacheButton`): whether it is
    enabled and the size label it shows, from the sizes of the two download folders. */
module StoreManagement {
  import opened Common

  /** The button's state. */
  datatype ClearCacheButton = ClearCacheButton(enabled: bool, text: string)

  /** Sizes above this many kilobytes are shown in megabytes. */
  const KbInMb: int := 1024

  /** `t` is a decimal numeral followed by `suffix`. */
  predicate IsNumberLabel(t: string, suffix: string)
  {
    |t| > |suffix| && t[|t| - |suffix|..] == suffix
    && forall i :: 0 <= i < |t| - |suffix| ==> IsDigit(t[i])
  }

  /** The number an `IsNumberLabel` label shows. */
  function ShownNumber(t: string, suffix: string): nat
    requires IsNumberLabel(t, suffix)
  {
    ParseDecimal(t[..|t| - |suffix|])
  }

  /** `setUpClearCacheButton`; `downloadKb` and `sdCardKb` are the folder sizes in kilobytes,
      `kb`, `mb` and `empty` the label resources. */
  function SetUpClearCacheButton(downloadKb: int, sdCardKb: int, kb: string, mb: string, empty: string)
    : (b: ClearCacheButton)
    // the button is enabled exactly when the two folders hold something
    ensures b.enabled <==> downloadKb + sdCardKb > 0
    ensures !b.enabled ==> b.text == empty
    // the numeral is written without leading zeros, so the label text is determined
    ensures b.enabled ==> |b.text| > 0 && b.text[0] != '0'
    // above one megabyte: whole megabytes, rounded down
    ensures downloadKb + sdCardKb > KbInMb ==>
              IsNumberLabel(b.text, mb)
              && ShownNumber(b.text, mb) * KbInMb <= downloadKb + sdCardKb
              && downloadKb + sdCardKb < (ShownNumber(b.text, mb) + 1) * KbInMb
    // up to one megabyte: the exact number of kilobytes
    ensures 0 < downloadKb + sdCardKb <= KbInMb ==>
              IsNumberLabel(b.text, kb) && ShownNumber(b.text, kb) == downloadKb + sdCardKb
  {
    var size := downloadKb + sdCardKb;
    if size > 0 then
      var shown := if size > KbInMb then size / KbInMb else size;
      var digits := NatToString(shown);
      var suffix := if size > KbInMb then mb else kb;
      assert (digits + suffix)[..|digits|] == digits && (digits + suffix)[0] == digits[0];
      ParseNatToString(shown);
      ClearCacheButton(true, digits + suffix)
    else ClearCacheButton(false, empty)
  }

  /** A megabyte label never shows zero, and the kilobyte label never exceeds 1024. */
  lemma LabelsStayInRange(downloadKb: int, sdCardKb: int, kb: string, mb: string, empty: string)
    ensures var b := SetUpClearCacheButton(downloadKb, sdCardKb, kb, mb, empty);
            (downloadKb + sdCardKb > KbInMb ==> ShownNumber(b.text, mb) >= 1)
            && (0 < downloadKb + sdCardKb <= KbInMb ==> 1 <= ShownNumber(b.text, kb) <= KbInMb)
  {
  }

  /** The switch to megabytes happens strictly above 1024 kilobytes: 1024 KB is still shown in
      kilobytes, 1025 KB as one megabyte. */
  lemma MegabyteBoundary(kb: string, mb: string, empty: string)
    ensures SetUpClearCacheButton(1024, 0, kb, mb, empty).text == "1024" + kb
    ensures SetUpClearCacheButton(1025, 0, kb, mb, empty).text == "1" + mb
  {
    assert NatToString(1024) == "1024" by {
      assert NatToString(1) == "1";
      assert NatToString(10) == "10";
      assert NatToString(102) == "102";
    }
  }
}
