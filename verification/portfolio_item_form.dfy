/** The portfolio item form (components/portfolio-item-form.tsx): the clean-up of typed
    numbers, the asset lines, the total allocation, validation on save and the add/edit
    update of the stored list. */
module PortfolioItemForm {
  import opened Wrappers
  import opened Seqs
  import opened Text
  import opened PortfolioGrid

  // ---------------------------------------------------------------------------------------
  // Numeric input clean-up
  // ---------------------------------------------------------------------------------------

  /** `s.replace(/^0+/, "")`: the string without its leading zeros. */
  function StripZeros(s: string): (r: string)
    ensures |r| <= |s| && r == s[|s| - |r|..]
    ensures r == [] || r[0] != '0'
    ensures forall i :: 0 <= i < |s| - |r| ==> s[i] == '0'
  {
    if s != [] && s[0] == '0' then StripZeros(s[1..]) else s
  }

  /** The leading-zero rule applies: more than one character, a leading '0', and a second
      character that is not a decimal point. */
  predicate HasRedundantZero(v: string)
  {
    |v| > 1 && v[0] == '0' && v[1] != '.'
  }

  /** The text a numeric field is parsed from after a keystroke. */
  function CleanNumeric(v: string): (r: string)
    ensures r != []
    ensures !HasRedundantZero(v) && v != [] ==> r == v
    ensures HasRedundantZero(v) ==>
      || (r == "0" && forall i :: 0 <= i < |v| ==> v[i] == '0')
      || (r[0] != '0' && |r| < |v| && r == v[|v| - |r|..] && forall i :: 0 <= i < |v| - |r| ==> v[i] == '0')
    ensures (forall i :: 0 <= i < |v| ==> v[i] == '0') ==> r == "0"
  {
    var cleaned := if HasRedundantZero(v) then StripZeros(v) else v;
    if cleaned == [] then "0" else cleaned
  }

  /** Cleaning an already cleaned value changes nothing. */
  lemma CleanNumericIdempotent(v: string)
    ensures CleanNumeric(CleanNumeric(v)) == CleanNumeric(v)
  {
    var r := CleanNumeric(v);
    if HasRedundantZero(v) && r != "0" {
      assert r[0] != '0';
    }
  }

  predicate IsDigit(c: char)
  {
    '0' <= c <= '9'
  }

  /** The n-th power of ten, built by multiplying one factor at a time. */
  function Pow10(n: nat): (r: nat)
    ensures r >= 1
  {
    if n == 0 then 1 else 10 * Pow10(n - 1)
  }

  /** The number a string of decimal digits denotes; the empty string denotes 0. */
  function NatValue(s: string): int
    requires forall i :: 0 <= i < |s| ==> IsDigit(s[i])
  {
    if s == [] then 0 else (s[0] as int - '0' as int) * Pow10(|s| - 1) + NatValue(s[1..])
  }

  /** Stripping leading zeros keeps the number a digit string denotes. */
  lemma {:induction false} StripZerosKeepsValue(s: string)
    requires forall i :: 0 <= i < |s| ==> IsDigit(s[i])
    ensures NatValue(StripZeros(s)) == NatValue(s)
  {
    if s != [] && s[0] == '0' {
      StripZerosKeepsValue(s[1..]);
    }
  }

  /** On a digit string, the clean-up keeps the number the field will hold. */
  lemma {:induction false} CleanNumericKeepsValue(v: string)
    requires forall i :: 0 <= i < |v| ==> IsDigit(v[i])
    ensures forall i :: 0 <= i < |CleanNumeric(v)| ==> IsDigit(CleanNumeric(v)[i])
    ensures NatValue(CleanNumeric(v)) == NatValue(v)
  {
    if HasRedundantZero(v) {
      StripZerosKeepsValue(v);
      if StripZeros(v) == [] {
        assert NatValue("0") == 0;
      }
    } else if v == [] {
      assert NatValue("0") == 0;
    }
  }

  // ---------------------------------------------------------------------------------------
  // Asset lines
  // ---------------------------------------------------------------------------------------

  /** `totalAllocation`: the allocations summed left to right from 0. */
  function TotalAllocation(assets: seq<Allocation>): real
  {
    if assets == [] then 0.0 else TotalAllocation(assets[..|assets| - 1]) + assets[|assets| - 1].allocation
  }

  /** The total of a concatenation is the sum of the totals. */
  lemma {:induction false} TotalAllocationAppend(a: seq<Allocation>, b: seq<Allocation>)
    ensures TotalAllocation(a + b) == TotalAllocation(a) + TotalAllocation(b)
    decreases |b|
  {
    if b == [] {
      assert a + b == a;
    } else {
      assert (a + b)[..|a + b| - 1] == a + b[..|b| - 1];
      TotalAllocationAppend(a, b[..|b| - 1]);
    }
  }

  /** With every allocation positive, no single allocation exceeds the total. */
  lemma {:induction false} PositiveAllocationsBounded(assets: seq<Allocation>, k: int)
    requires forall i :: 0 <= i < |assets| ==> assets[i].allocation > 0.0
    requires 0 <= k < |assets|
    ensures assets[k].allocation <= TotalAllocation(assets)
    ensures TotalAllocation(assets) > 0.0
    decreases |assets|
  {
    var init := assets[..|assets| - 1];
    if k < |assets| - 1 {
      PositiveAllocationsBounded(init, k);
    } else if init != [] {
      PositiveAllocationsBounded(init, 0);
    }
  }

  /** `addAsset`: one empty line at the end. */
  function AddAsset(assets: seq<Allocation>): (r: seq<Allocation>)
    ensures |r| == |assets| + 1
    ensures r[..|assets|] == assets
    ensures r[|assets|] == Allocation("", 0.0)
  {
    assets + [Allocation("", 0.0)]
  }

  /** `removeAsset`: a form keeps at least one line; otherwise `splice(index, 1)`, whose
      start counts from the end when negative and is clamped to the list. */
  function RemoveAsset(assets: seq<Allocation>, index: int): (r: seq<Allocation>)
    ensures |assets| <= 1 ==> r == assets
    ensures |assets| >= 1 ==> |r| >= 1
    ensures |r| == |assets| || |r| == |assets| - 1
    ensures |assets| > 1 && 0 <= index < |assets| ==>
      |r| == |assets| - 1 && multiset(r) + multiset{assets[index]} == multiset(assets)
    ensures |assets| > 1 && 0 <= index < |assets| ==> r == assets[..index] + assets[index + 1..]
    ensures |assets| > 1 && -|assets| <= index < 0 ==>
      r == assets[..|assets| + index] + assets[|assets| + index + 1..]
    ensures |assets| > 1 && index < -|assets| ==> r == assets[1..]
    ensures index >= |assets| ==> r == assets
  {
    if |assets| <= 1 then assets
    else
      var k := SliceIndex(index, |assets|);
      if k < |assets| then
        assert assets == assets[..k] + [assets[k]] + assets[k + 1..];
        assets[..k] + assets[k + 1..]
      else assets
  }

  /** Adding a line keeps the total. */
  lemma AddAssetKeepsTotal(assets: seq<Allocation>)
    ensures TotalAllocation(AddAsset(assets)) == TotalAllocation(assets)
  {
    assert AddAsset(assets)[..|assets|] == assets;
  }

  /** Removing the line just added gives back the original lines. */
  lemma RemoveUndoesAdd(assets: seq<Allocation>)
    requires |assets| >= 1
    ensures RemoveAsset(AddAsset(assets), |assets|) == assets
  {
  }

  /** Removing a line lowers the total by exactly that line's allocation. */
  lemma RemoveAssetTotal(assets: seq<Allocation>, index: int)
    requires |assets| > 1 && 0 <= index < |assets|
    ensures TotalAllocation(RemoveAsset(assets, index))
            == TotalAllocation(assets) - assets[index].allocation
  {
    var a, b := assets[..index], assets[index + 1..];
    assert assets == a + ([assets[index]] + b);
    TotalAllocationAppend(a, [assets[index]] + b);
    TotalAllocationAppend([assets[index]], b);
    assert TotalAllocation([assets[index]]) == assets[index].allocation by {
      assert [assets[index]][..0] == [];
    }
    TotalAllocationAppend(a, b);
  }

  // ---------------------------------------------------------------------------------------
  // Validation and save
  // ---------------------------------------------------------------------------------------

  /** The message a failed save shows. */
  datatype FormError = NameRequired | TypeRequired | RiskLevelRequired
                     | TotalValueMustBePositive | AllAssetsMustBeValid | TotalAllocationMustBe100

  /** An asset line the save rejects: a blank symbol or a non-positive allocation. */
  predicate InvalidAsset(a: Allocation)
  {
    IsBlank(a.symbol) || a.allocation <= 0.0
  }

  /** `Math.abs(total - 100) > 0.01`. */
  predicate OffHundred(total: real)
  {
    total - 100.0 > 0.01 || 100.0 - total > 0.01
  }

  /** The checks of `handleSave`, in order; the first that fails names the error. */
  function ValidateForm(item: PortfolioItem): (r: Option<FormError>)
    ensures r == Some(NameRequired) <==> IsBlank(item.name)
    ensures r == Some(TypeRequired) <==> !IsBlank(item.name) && item.kind == ""
    ensures r == Some(RiskLevelRequired) <==>
      !IsBlank(item.name) && item.kind != "" && item.riskLevel == ""
    ensures r == Some(TotalValueMustBePositive) <==>
      !IsBlank(item.name) && item.kind != "" && item.riskLevel != "" && item.totalValue <= 0.0
    ensures r == Some(AllAssetsMustBeValid) <==>
      !IsBlank(item.name) && item.kind != "" && item.riskLevel != "" && item.totalValue > 0.0
      && exists i :: 0 <= i < |item.assets| && InvalidAsset(item.assets[i])
    ensures r.None? <==>
      !IsBlank(item.name) && item.kind != "" && item.riskLevel != "" && item.totalValue > 0.0
      && (forall i :: 0 <= i < |item.assets| ==> !InvalidAsset(item.assets[i]))
      && !OffHundred(TotalAllocation(item.assets))
  {
    if IsBlank(item.name) then Some(NameRequired)
    else if item.kind == "" then Some(TypeRequired)
    else if item.riskLevel == "" then Some(RiskLevelRequired)
    else if item.totalValue <= 0.0 then Some(TotalValueMustBePositive)
    else if exists i :: 0 <= i < |item.assets| && InvalidAsset(item.assets[i]) then Some(AllAssetsMustBeValid)
    else if OffHundred(TotalAllocation(item.assets)) then Some(TotalAllocationMustBe100)
    else None
  }

  /** A form that passes validation has at least one asset line, and each line's share is
      positive and at most the 100.01 per cent the total may reach. */
  lemma ValidFormShares(item: PortfolioItem)
    requires ValidateForm(item).None?
    ensures |item.assets| >= 1
    ensures forall i :: 0 <= i < |item.assets| ==>
      0.0 < item.assets[i].allocation <= 100.01
  {
    if item.assets == [] {
      assert false;
    }
    forall i | 0 <= i < |item.assets|
      ensures 0.0 < item.assets[i].allocation <= 100.01
    {
      assert !InvalidAsset(item.assets[i]);
      PositiveAllocationsBounded(item.assets, i);
    }
  }

  /** `findIndex` on the id: the first row carrying it. */
  function FindId(data: seq<PortfolioItem>, id: string): (r: Option<nat>)
    ensures r.Some? ==>
      (r.value < |data| && data[r.value].id == id && forall j :: 0 <= j < r.value ==> data[j].id != id)
    ensures r.None? <==> forall j :: 0 <= j < |data| ==> data[j].id != id
  {
    if data == [] then None
    else if data[0].id == id then Some(0)
    else match FindId(data[1..], id)
      case None => None
      case Some(k) => Some(k + 1)
  }

  /** `handleSave`: validate; then stamp the item with `now` and either replace the first
      row carrying the edited id (nothing when there is none) or append it. */
  function Save(data: seq<PortfolioItem>, editId: Option<string>, item: PortfolioItem, now: string)
    : (r: Result<seq<PortfolioItem>, FormError>)
    ensures r.Failure? <==> ValidateForm(item).Some?
    ensures r.Failure? ==> r.error == ValidateForm(item).value
    ensures r.Success? && editId.None? ==>
      r.value == data + [item.(lastUpdated := now)]
    ensures r.Success? && editId.Some? ==> |r.value| == |data|
    ensures r.Success? && editId.Some? && FindId(data, editId.value).None? ==> r.value == data
    ensures r.Success? && editId.Some? && FindId(data, editId.value).Some? ==>
      var k := FindId(data, editId.value).value;
      && r.value[k] == item.(lastUpdated := now)
      && forall j :: 0 <= j < |data| && j != k ==> r.value[j] == data[j]
  {
    match ValidateForm(item)
    case Some(e) => Failure(e)
    case None =>
      var updated := item.(lastUpdated := now);
      match editId
      case None => Success(data + [updated])
      case Some(id) =>
        match FindId(data, id)
        case None => Success(data)
        case Some(k) => Success(data[k := updated])
  }

  /** An edit that keeps the id leaves the row where it was: looking the id up again finds
      the saved item at the same position. */
  lemma EditKeepsPosition(data: seq<PortfolioItem>, id: string, item: PortfolioItem, now: string)
    requires ValidateForm(item).None? && item.id == id
    requires FindId(data, id).Some?
    ensures Save(data, Some(id), item, now).Success?
    ensures var r := Save(data, Some(id), item, now).value;
      FindId(r, id) == FindId(data, id) && r[FindId(r, id).value] == item.(lastUpdated := now)
  {
    var r := Save(data, Some(id), item, now).value;
    var k := FindId(data, id).value;
    assert r[k].id == id;
  }

  /** A new item is stored after every existing row, which stay in place. */
  lemma AddAppends(data: seq<PortfolioItem>, item: PortfolioItem, now: string)
    requires ValidateForm(item).None?
    ensures Save(data, None, item, now).Success?
    ensures var r := Save(data, None, item, now).value;
      |r| == |data| + 1 && r[..|data|] == data && r[|data|].lastUpdated == now
  {
  }
}
