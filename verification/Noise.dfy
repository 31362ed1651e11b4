/** What counts as noise in Kubernetes manifests and objects alike. */
module Noise {

  const NOISY_ANNOTATIONS: seq<string> := [
    "kubectl.kubernetes.io/last-applied-configuration",
    "deployment.kubernetes.io/revision",
    "control-plane.alpha.kubernetes.io/leader"
  ]
}
