/** The parts of the service configuration the consumption pipeline reads. */
module Types {

  /** `types.Config`, reduced to the fields the core uses: the deployment environment, the
      Basic-Auth credentials for the delivery endpoint, and its base URL. */
  datatype Config = Config(
    environment: string,
    username: string,
    password: string,
    notificationUrl: string)
}
