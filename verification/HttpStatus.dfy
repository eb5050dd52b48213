/** The HTTP status codes the services answer with. */
module HttpStatus {
  const OK := 200
  const ACCEPTED := 202
  const BAD_REQUEST := 400
  const PAYMENT_REQUIRED := 402
  const BAD_GATEWAY := 502
}
