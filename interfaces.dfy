/** The record shapes the REST API returns, as the client declares them. */
module Records {
  import opened Common

  /** The `pagination` block every paged listing carries. */
  datatype PageInfo = PageInfo(total: int, page: int, limit: int, totalPages: int)

  /** `{ data: Item[], pagination }`: a page of records of some kind. */
  datatype Listing<T> = Listing(items: seq<T>, pagination: PageInfo)

  datatype OutboundItem = OutboundItem(
    id: string,
    sourceFileName: string,
    salesOrderToWms: bool,
    salesOrderInvoiceRequest: bool,
    invoiceRequested: bool,
    invoiceReceived: bool,
    invoiceToStralog: bool,
    invoiceToIntercomm: bool,
    /** Displayed by the outbound table although the declared interface lacks it. */
    invoiceConfirmationToSftp: bool,
    createdAt: string,
    updatedAt: string)

  datatype InboundItem = InboundItem(
    processId: string,
    sourceFileName: string,
    invoiceReceived: bool,
    invoiceRequested: bool,
    invoiceToStralog: bool,
    invoiceToIntercomm: bool,
    createdAt: string,
    updatedAt: string)

  datatype WmsResponse = WmsResponse(status: string, message: string)

  datatype ProductRecord = ProductRecord(
    partNumber: string,
    sourceFileName: string,
    createdAt: string,
    wmsSenior: WmsResponse,
    wmsIntercomm: WmsResponse,
    /** Displayed by the products table although the declared interface lacks it. */
    status: string)

  type OutboundList = Listing<OutboundItem>
  type InboundList = Listing<InboundItem>
  type ProductsHeaderData = Listing<ProductRecord>

  /** `ProcessScanResponse`: what the scan endpoint answers on success. */
  datatype ProcessScanResponse = ProcessScanResponse(message: string)

  /** The payload of a bearer token (`UserData & { exp?: number }`), every
      field optional; `exp` is in seconds since the epoch. */
  datatype Claims = Claims(
    id: Option<string>,
    email: Option<string>,
    name: Option<string>,
    company: Option<string>,
    exp: Option<int>)
}
