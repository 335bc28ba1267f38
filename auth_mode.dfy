/** Which authenticator the service is started with. */
module AuthMode {

  datatype AuthMode = Asymmetric | Symmetric
}
