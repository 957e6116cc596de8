/** The two failure kinds the client reports. */
module ApiErrors {

  datatype OagunthError = Parsing(desc: string) | Network(desc: string)
}
