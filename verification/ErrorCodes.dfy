// boost::system::error_code, as far as the connectors look at it.
module ErrorCodes {
  datatype ErrorCode = Success | OperationAborted | TimedOut | NotFound | System(value: int)
}
