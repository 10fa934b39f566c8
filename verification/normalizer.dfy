/**
 * parseProductFromJson: one upstream item becomes one ProductDto.
 *
 * An item is a flat JSON object; the model keeps, for each key the object
 * has, the text Jackson's asText("") gives for its value (a JSON null gives
 * ""). An array element that is not an object has no keys and is the empty map.
 */
module Normalizer {
  import opened Wrappers
  import opened Records
  import opened Identifier

  type Item = map<string, string>

  const ReportNoKey: string := "PRDLST_REPORT_NO"
  const NameKey: string := "PRDLST_NM"
  const CompanyKey: string := "BSSH_NM"
  const ExpirationKey: string := "POG_DAYCNT"
  const MainFunctionKey: string := "PRIMARY_FNCLTY"
  const IntakeHintKey: string := "NTK_MTHD"
  const PreservationKey: string := "PRSRV_PD"
  const BaseStandardKey: string := "BASE_STANDARD"

  /** item.path(key).asText(""): a missing key reads as "". */
  function TextOrEmpty(item: Item, key: string): string
  {
    if key in item then item[key] else ""
  }

  /** The value of an optional field: set only when item.has(key). */
  function OptionalText(item: Item, key: string): Option<string>
  {
    if key in item then Some(item[key]) else None
  }

  /**
   * The record built from one item; `millis` is the clock reading the
   * fallback identifier would use.
   */
  function ParseProductFromJson(item: Item, millis: int): (d: ProductDto)
    // the identifier comes from the registration number, as Identifier.DeriveId promises
    ensures d.prdId == DeriveId(TextOrEmpty(item, ReportNoKey), TextOrEmpty(item, NameKey), millis)
    ensures 0 <= d.prdId <= MaxLong
    // the three required fields are always set, to "" when the key is missing
    ensures d.productName.Some? && d.companyName.Some? && d.registrationNo.Some?
    ensures NameKey in item ==> d.productName.value == item[NameKey]
    ensures NameKey !in item ==> d.productName.value == ""
    ensures CompanyKey in item ==> d.companyName.value == item[CompanyKey]
    ensures CompanyKey !in item ==> d.companyName.value == ""
    ensures ReportNoKey in item ==> d.registrationNo.value == item[ReportNoKey]
    ensures ReportNoKey !in item ==> d.registrationNo.value == ""
    // each optional field is set exactly when its key is present, to that key's text
    ensures d.expirationPeriod.Some? <==> ExpirationKey in item
    ensures d.expirationPeriod.Some? ==> d.expirationPeriod.value == item[ExpirationKey]
    ensures d.mainFunction.Some? <==> MainFunctionKey in item
    ensures d.mainFunction.Some? ==> d.mainFunction.value == item[MainFunctionKey]
    ensures d.intakeHint.Some? <==> IntakeHintKey in item
    ensures d.intakeHint.Some? ==> d.intakeHint.value == item[IntakeHintKey]
    ensures d.preservation.Some? <==> PreservationKey in item
    ensures d.preservation.Some? ==> d.preservation.value == item[PreservationKey]
    ensures d.baseStandard.Some? <==> BaseStandardKey in item
    ensures d.baseStandard.Some? ==> d.baseStandard.value == item[BaseStandardKey]
    // the store-only serving-use note is never filled from upstream
    ensures d.srvUse == None
  {
    var reportNo := TextOrEmpty(item, ReportNoKey);
    var name := TextOrEmpty(item, NameKey);
    var company := TextOrEmpty(item, CompanyKey);
    ProductDto(
      prdId := DeriveId(reportNo, name, millis),
      productName := Some(name),
      companyName := Some(company),
      registrationNo := Some(reportNo),
      expirationPeriod := OptionalText(item, ExpirationKey),
      srvUse := None,
      mainFunction := OptionalText(item, MainFunctionKey),
      preservation := OptionalText(item, PreservationKey),
      intakeHint := OptionalText(item, IntakeHintKey),
      baseStandard := OptionalText(item, BaseStandardKey))
  }

  /** Items that differ only in keys the normalizer never reads give the same record. */
  lemma ParseIgnoresUnknownKeys(item: Item, key: string, value: string, millis: int)
    requires key !in {ReportNoKey, NameKey, CompanyKey, ExpirationKey, MainFunctionKey,
                      IntakeHintKey, PreservationKey, BaseStandardKey}
    ensures ParseProductFromJson(item[key := value], millis) == ParseProductFromJson(item, millis)
  {
    var item' := item[key := value];
    assert TextOrEmpty(item', ReportNoKey) == TextOrEmpty(item, ReportNoKey);
    assert TextOrEmpty(item', NameKey) == TextOrEmpty(item, NameKey);
  }

  /**
   * The item {"PRDLST_REPORT_NO":"2020123456","PRDLST_NM":"VitC","BSSH_NM":"AcmeCo"}
   * becomes the record with identifier 2020123456, those three fields, and
   * every optional field unset, whatever the clock says.
   */
  lemma VitaminExample(millis: int)
    ensures ParseProductFromJson(VitaminItem, millis)
         == ProductDto(2020123456, Some("VitC"), Some("AcmeCo"), Some("2020123456"),
                       None, None, None, None, None, None)
  {
    VitaminRequiredFields(millis);
    VitaminOptionalFields(millis);
  }

  const VitaminItem: Item := map[ReportNoKey := "2020123456", NameKey := "VitC", CompanyKey := "AcmeCo"]

  lemma VitaminRequiredFields(millis: int)
    ensures var d := ParseProductFromJson(VitaminItem, millis);
            d.prdId == 2020123456 && d.productName == Some("VitC") && d.companyName == Some("AcmeCo")
            && d.registrationNo == Some("2020123456")
  {
    assert TextOrEmpty(VitaminItem, ReportNoKey) == "2020123456";
    assert TextOrEmpty(VitaminItem, NameKey) == "VitC";
    ExampleIdentifier(millis);
  }

  lemma VitaminOptionalFields(millis: int)
    ensures var d := ParseProductFromJson(VitaminItem, millis);
            d.expirationPeriod == None && d.mainFunction == None && d.intakeHint == None
            && d.preservation == None && d.baseStandard == None
  {
    AbsentFromVitamin(ExpirationKey);
    AbsentFromVitamin(MainFunctionKey);
    AbsentFromVitamin(IntakeHintKey);
    AbsentFromVitamin(PreservationKey);
    AbsentFromVitamin(BaseStandardKey);
  }

  /** A key whose length differs from all three keys of the example item is absent from it. */
  lemma AbsentFromVitamin(key: string)
    requires |key| != |ReportNoKey| && |key| != |NameKey| && |key| != |CompanyKey|
    ensures key !in VitaminItem
  {
  }

  /** The registration number "2020123456" gives identifier 2020123456. */
  lemma ExampleIdentifier(millis: int)
    ensures DeriveId("2020123456", "VitC", millis) == 2020123456
  {
    assert AllDigits("2020123456");
    DigitsOfDigitString("2020123456");
    ExampleDecimalValue();
  }

  lemma ExampleDecimalValue()
    ensures DecimalValue("2020123456") == 2020123456
  {
    ExampleDecimalPrefix();
    DecimalAppend("20201", '2');
    assert "202012" == "20201" + ['2'];
    DecimalAppend("202012", '3');
    assert "2020123" == "202012" + ['3'];
    DecimalAppend("2020123", '4');
    assert "20201234" == "2020123" + ['4'];
    DecimalAppend("20201234", '5');
    assert "202012345" == "20201234" + ['5'];
    DecimalAppend("202012345", '6');
    assert "2020123456" == "202012345" + ['6'];
  }

  lemma ExampleDecimalPrefix()
    ensures DecimalValue("20201") == 20201
  {
    DecimalAppend("2", '0');
    assert "20" == "2" + ['0'];
    DecimalAppend("20", '2');
    assert "202" == "20" + ['2'];
    DecimalAppend("202", '0');
    assert "2020" == "202" + ['0'];
    DecimalAppend("2020", '1');
    assert "20201" == "2020" + ['1'];
  }

  /**
   * A registration number whose digits read as zero ("No. 0") gives
   * identifier zero; the record is still produced.
   */
  lemma ZeroRegistrationExample(millis: int)
    ensures ParseProductFromJson(map[ReportNoKey := "No. 0"], millis).prdId == 0
  {
    assert "No. 0" == "No. " + ToDecimal(0) + "";
    assert Digits("No. ") == [];
    FormattedRegistration("No. ", 0, "", "", millis);
  }

  /**
   * An item with an empty registration number ({"PRDLST_REPORT_NO":"","PRDLST_NM":"Noname"})
   * takes the fallback identifier, which lies in [0, 10^9) and is zero for some clock reading.
   */
  lemma EmptyRegistrationExample(millis: int)
    ensures var d := ParseProductFromJson(map[ReportNoKey := "", NameKey := "Noname"], millis);
            d.prdId == FallbackId("Noname", millis) && d.prdId < FallbackModulus
    ensures ParseProductFromJson(map[ReportNoKey := "", NameKey := "Noname"],
                                 1_700_000_000_000 - JavaHashCode("Noname")).prdId == 0
  {
    FallbackCanBeZero("Noname");
  }
}
