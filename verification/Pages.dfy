// A fetched page: what samples, harvests and the sandbox pass around.
module Pages {
  datatype Page = Page(url: string, html: string)
}
