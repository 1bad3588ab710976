// TLS versions and cipher suites (internal/common/tls.go).

module Tls {
  const DEFAULT_CIPHER_SUITES := [
    "TLS_ECDHE_ECDSA_WITH_AES_128_GCM_SHA256",
    "TLS_ECDHE_ECDSA_WITH_CHACHA20_POLY1305_SHA256",
    "TLS_ECDHE_RSA_WITH_AES_128_GCM_SHA256",
    "TLS_ECDHE_RSA_WITH_CHACHA20_POLY1305_SHA256",
    "TLS_ECDHE_ECDSA_WITH_AES_256_GCM_SHA384",
    "TLS_ECDHE_RSA_WITH_AES_256_GCM_SHA384"]

  const EXTRA_CIPHER_SUITES := [
    "TLS_RSA_WITH_AES_128_GCM_SHA256",
    "TLS_RSA_WITH_AES_128_CBC_SHA",
    "TLS_RSA_WITH_AES_256_GCM_SHA384",
    "TLS_RSA_WITH_AES_256_CBC_SHA",
    "TLS_ECDHE_ECDSA_WITH_AES_128_CBC_SHA",
    "TLS_ECDHE_RSA_WITH_AES_128_CBC_SHA",
    "TLS_ECDHE_ECDSA_WITH_AES_256_CBC_SHA",
    "TLS_ECDHE_RSA_WITH_AES_256_CBC_SHA"]

  predicate SupportedCipherSuite(c: string) {
    c in DEFAULT_CIPHER_SUITES || c in EXTRA_CIPHER_SUITES
  }

  predicate SupportedVersion(v: string) {
    v in ["TLS_AUTO", "TLSv1_0", "TLSv1_1", "TLSv1_2", "TLSv1_3"]
  }

  predicate CipherSuitesConfigurable(minVersion: string) {
    minVersion in ["", "TLS_AUTO", "TLSv1_0", "TLSv1_1", "TLSv1_2"]
  }
}
