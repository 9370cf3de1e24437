/** Client login validation (mipstee_authenticate_client): the login method
    must be one of the six connection methods of the GlobalPlatform TEE Client
    API. No further authorization is performed. */
module Login {
  import opened MipsteeTypes

  const TEEC_LOGIN_PUBLIC: u32 := 0x0
  const TEEC_LOGIN_USER: u32 := 0x1
  const TEEC_LOGIN_GROUP: u32 := 0x2
  const TEEC_LOGIN_APPLICATION: u32 := 0x4
  const TEEC_LOGIN_USER_APPLICATION: u32 := 0x5
  const TEEC_LOGIN_GROUP_APPLICATION: u32 := 0x6

  /** The switch of mipstee_authenticate_client: the six connection methods
      of the GlobalPlatform TEE Client API, which fall through to the
      acceptance path. */
  predicate LoginPermitted(login: u32) {
    || login == TEEC_LOGIN_PUBLIC
    || login == TEEC_LOGIN_USER
    || login == TEEC_LOGIN_GROUP
    || login == TEEC_LOGIN_APPLICATION
    || login == TEEC_LOGIN_USER_APPLICATION
    || login == TEEC_LOGIN_GROUP_APPLICATION
  }
}
