/**
 * The two shapes of a product: the transfer object handed to callers
 * (ProductDto) and the row kept by the record store (Product). Both carry
 * the same ten fields; every string field is a Java reference and may be
 * null, which the model writes as None.
 */
module Records {
  import opened Wrappers

  datatype ProductDto = ProductDto(
    prdId: int,
    productName: Option<string>,
    companyName: Option<string>,
    registrationNo: Option<string>,
    expirationPeriod: Option<string>,
    srvUse: Option<string>,
    mainFunction: Option<string>,
    preservation: Option<string>,
    intakeHint: Option<string>,
    baseStandard: Option<string>)

  datatype Product = Product(
    prdId: int,
    productName: Option<string>,
    companyName: Option<string>,
    registrationNo: Option<string>,
    expirationPeriod: Option<string>,
    srvUse: Option<string>,
    mainFunction: Option<string>,
    preservation: Option<string>,
    intakeHint: Option<string>,
    baseStandard: Option<string>)

  /** convertToDto: copies all ten fields of a stored row. */
  function ConvertToDto(p: Product): (d: ProductDto)
    ensures d.prdId == p.prdId
    ensures d.productName == p.productName && d.companyName == p.companyName
    ensures d.registrationNo == p.registrationNo && d.srvUse == p.srvUse
    ensures d.expirationPeriod == p.expirationPeriod && d.mainFunction == p.mainFunction
    ensures d.preservation == p.preservation && d.intakeHint == p.intakeHint
    ensures d.baseStandard == p.baseStandard
  {
    ProductDto(p.prdId, p.productName, p.companyName, p.registrationNo,
               p.expirationPeriod, p.srvUse, p.mainFunction, p.preservation,
               p.intakeHint, p.baseStandard)
  }

  /** convertToEntity: the row written for a record; converting it back loses nothing. */
  function ConvertToEntity(d: ProductDto): (p: Product)
    ensures p.prdId == d.prdId
    ensures ConvertToDto(p) == d
  {
    Product(d.prdId, d.productName, d.companyName, d.registrationNo,
            d.expirationPeriod, d.srvUse, d.mainFunction, d.preservation,
            d.intakeHint, d.baseStandard)
  }

  /** Converting a stored row to a record and back gives the same row. */
  lemma EntityRoundTrip(p: Product)
    ensures ConvertToEntity(ConvertToDto(p)) == p
  {
  }

  /** Two records that map to the same row are the same record. */
  lemma ConvertToEntityInjective(d1: ProductDto, d2: ProductDto)
    requires ConvertToEntity(d1) == ConvertToEntity(d2)
    ensures d1 == d2
  {
    assert ConvertToDto(ConvertToEntity(d1)) == d1;
  }
}
