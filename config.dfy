/**
 * The configuration records the Viessmann client is built from. They carry
 * no behaviour.
 */
module Config {

  datatype IAMConfig = IAMConfig(
    baseUrl: string,
    clientId: string,
    redirectUri: string,
    usePkceFlow: bool,
    username: string,
    password: string)

  datatype IoTConfig = IoTConfig(baseUrl: string, installationId: string, gatewayId: string)

  datatype ViessmannConfig = ViessmannConfig(iam: IAMConfig, iot: IoTConfig)
}
