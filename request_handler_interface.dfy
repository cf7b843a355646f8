/** Handler factories as the registries hold them: objects compared by
    identity. What a factory creates is not part of this model. */
module RequestHandlerInterface {

  /** A `RequestHandlerFactory*` that is not null. */
  class RequestHandlerFactory {
    constructor ()
    {
    }
  }
}
