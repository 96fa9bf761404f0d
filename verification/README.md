# Notebook controllers: a verified model

This project models the two controllers of the notebook operator and their webhooks, all acting on one
`Notebook` object, and proves what they keep when they interleave on an API server with optimistic
concurrency. `dafny verify dfyconfig.toml` checks everything.

| file | what it holds |
|---|---|
| Text, Sequences, PodModel | strings as the controllers use them; lists of named things; notebooks and pod templates |
| Mutators | what each mutator of the mutating webhook does, as functions over a cluster snapshot |
| NotebookObject, MutatingWebhook | the same mutators as loops over a notebook object, proved to compute those functions |
| EnvPipeline, MountPipeline, Pipeline | the whole pipeline taken apart container by container, and run on its own output |
| Selection | the workbench image, from the selection annotation to container 0 |
| Workbench | the pod an accepted mutation serves, container by container and name by name, every name and value written out |
| PodSecurity | the pod template check of the validating webhook, and what a mutation makes of it |
| Admission | the gate that holds mutations back on a running workbench, the validating webhook, the MLflow invariant |
| ProxyTls, TlsReconcile | the sidecar's TLS flags, and the controller that writes them through its own webhook |
| TlsOnTheWire, TlsSettled | the same in the terms of a TLS profile, its groups and suites, and of the stored notebook a pass leaves |
| CertUnset, CertPass | deleting from a slice while ranging over it; the certificate round trip; the pass that patches certificates out of a stored notebook |
| Runs, Interleaving | whole runs of submissions, TLS passes and certificate passes; passes among the writes of others as pieces of such runs |
| Lifecycle, Progress, Deletion | finalizers, routes and the shared grant under interleaving and failing calls; what an undisturbed reconcile and deletion get done; one deletion pass call by call |
| Routes, RouteReconcile | ingress assignment, incremental reconciliation, route convergence |
| Culler | activity tracking, the idle bound |
| NetworkPolicies, RuntimeImages, ReconciliationLock | ownership-aware repair, ConfigMap keys, the start-up lock |
| Witnesses | concrete notebooks and clusters on the failing side of the exact theorems |

Three conventions run through it. A list edit is described by what it does to the selection `Sel` of the
elements that carry a given name, so repeated names are covered and not assumed away. Map iteration order
is a parameter (`Orders`), quantified over in every theorem. The main operations have, beside the theorems about
whole runs, one theorem that says what it comes to without its own functions and constants: annotation keys,
names, paths, ports, versions and numbers are literal there.

## What the theorems say

- **Idempotence.** `Pipeline.MutateTwice`: a second run of the mutating webhook over its own output, under
  any other map order, returns it unchanged if and only if the submitted template was `Regular`. Three
  irregular families exist, each with a notebook that shows it: the Feast label is off and the Feast volume is
  listed twice (`Witnesses.FeastTwice`); an MLflow variable due for removal occurs twice
  (`Witnesses.FlagTwice`); the Feast step cuts the one mount that kept the Elyra mount out
  (`Witnesses.FeastAtElyraPath`). A notebook named like the sidecar is excluded.
- **No surprise restart, but for one.** Over every run of submissions, cluster changes and controller passes the
  stored template moves only where its owner asked or the culler stopped it, where TLS flags reach a stopped or restarting workbench, or
  where the certificate pass patches it (`Runs.NoSurpriseRestart`). That last one restarts running workbenches
  nobody touched: when the bundle's ConfigMap cannot be read and is mounted, the controller submits another
  template itself, which opens the gate for everything held back (`CertPass.UnsetReleases`,
  `Witnesses.RunningLosesTemplate`). `Runs.UnsetMovesExactly` says exactly when, and by
  `Runs.RunningStaysPut` it is the only way: a running workbench nobody touches keeps its template along a run if
  and only if no such pass takes effect. A pass that has read an older template overwrites what was edited since
  (`Witnesses.EditLost`).
- **What is served.** `Workbench.MutateServes` gives the whole pod after an accepted mutation: variables, mounts
  and volumes by name, probes, the sidecar with its flags and resources; `Workbench.WhenServed` when a mutation is
  accepted, and `Selection.SelectedImageArrives` which image it gets. The namespace annotation is used as it is,
  blanks around it included; only an annotation of nothing but blanks counts as missing.
- **Pod security.** `PodSecurity.MutateSecure`: a mutated template passes the check exactly when its shortcomings
  are in what the mutation replaces, so a mutation never spoils a template; with `Runs.SecureAlongRuns`, stopping
  always releases what was held back (`Admission.GoingAwayReleases`).
- **TLS fixpoint.** `TlsReconcile.AtMostOneWrite`: for a fixed profile the controller writes at most once,
  whatever else changes and whichever calls fail. It needs injection to be on in the *stored* notebook. Where
  its owner switches injection off between the two reads of a pass, the pass may write although the sidecar is
  off; a pass that starts from the notebook so stored writes nothing, and one for which the owner toggles again
  writes again exactly when the webhook has nothing to change (`TlsReconcile.WithoutInjection`,
  `Witnesses.TogglingWritesTwice`). Other arguments are kept in what is submitted; the webhook rebuilds the
  container, so they are kept in the store exactly when they were the webhook's own
  (`TlsReconcile.OthersKept`, `Witnesses.ArgumentLost`). With others writing in between, a pass with its retries
  leaves the store as a run of their steps and at most one of its own does (`Interleaving.PassIsRun`).
  What a pass is for: it leaves the notebook in order (`TlsSettled.PassBringsOrder`), trying again on conflicts
  (`TlsSettled.ConflictsAreRetried`).
- **MLflow.** `Runs.MlflowAlongRuns`; the bound of one flag per container is exact
  (`Admission.MlflowLeftOver`, `Witnesses.FlagLeftOver`).
- **Certificates.** `CertUnset.CertRoundTrip` is an equivalence; distinct environment names are not needed.
  The in-place deletion removes every match exactly when no two matches are neighbours
  (`CertUnset.SurviveIsFilter`, `Witnesses.NeighbourSurvives`) and panics exactly when the last element and an
  earlier one match (`Witnesses.TwiceLastPanics`).
- **Lifecycle.** No leaked route, a held grant, and no grant left behind, over all interleavings with calls
  lost before or after they took effect. The last one holds whenever users delete a notebook only once it holds
  the grant's finalizer (`Lifecycle.NoGrantLeft`), and over all runs exactly when no deletion harms the namespace
  for good (`Lifecycle.GrantLeftExactly`); `Lifecycle.GrantLeftBehind` is a run from the empty cluster that leaves
  a grant behind. `Progress.ReconcileProvides` and `Progress.DeletionReleases` say that an undisturbed worker does
  get there.
- **Deletion.** `Deletion.Cluster.DeletePass`: which cleanups and writes of a pass succeed, which finalizers go
  and whether the pass fails is a function of the replies to its calls, cleanup by cleanup;
  a finalizer never goes without what it stands for (`Accounted`).
  `Deletion.ReconcileUntilReleased` terminates once calls stop failing.
- **Routes.** `RouteReconcile.RouteStore.ReconcileMode` succeeds, with its calls answered, exactly when the
  assignment can be looked up and either cannot be resolved or leaves at most one route of the mode; then the
  notebook has exactly its desired route, unless it had none of the mode and the name was taken. Two routes of one
  mode are never resolved, however many passes run (`RouteReconcile.PassesStayStuck`).
  `Routes.IncrementalEqualsFull` for configuration changes, with lookups that may fail in the comparison and in
  the reconciles; a notebook listing that fails leaves exactly the changed notebooks on the old configuration
  (`Routes.ListingFailed`).
- **Lock.** `ReconciliationLock.LockHoldsDown`: no replicas before some reconcile has got through the whole list
  of stages.
- **Culler.** `Culler.CullBound`: no stop before the idle time less one second, because timestamps lose their
  fraction; `Culler.CullsWhenIdle`: over the same runs a check stops the workbench if and only if the clock is past
  the whole seconds of the latest accepted activity by more than the idle time.

## Where comments and code differ

The model follows the code.

- `CopyStatefulSetFields` is described as returning true when the fields do not match; labels and
  annotations that only the desired object has are not noticed (`ReconciliationLock.AddedLabelIsMissed`).
- `CleanupKubeRbacProxyClusterRoleBinding` is described as acting for the last auth-enabled notebook of a
  namespace; it deletes this notebook's binding unconditionally, and the deletion pass calls it only while
  inject-auth is on.
- `deferRunningNotebookTLS` is described as not writing a second time; with the owner switching injection on
  before, and off within each of two passes, it does (`Witnesses.TogglingWritesTwice`).
- `IsConfigMapDeleted` is described as checking whether the ConfigMap is deleted; any failing read of it counts
  (`CertPass.UnsetPatch`, whose `missing` is a failed read).
- The image step writes the image of container 0, whichever container carries the notebook's name.

## Model

| member | source | states |
|---|---|---|
| Admission.NewIsLocked | components/odh-notebook-controller/controllers/notebook_mutating_webhook.go:114-123 | an accepted new notebook carries the lock whatever stop annotation it came with, gets the template it would get without it, and keeps its other annotations |
| MutatingWebhook.ParseAndValidateAuthSidecarResources | components/odh-notebook-controller/controllers/notebook_mutating_webhook.go:135-182 | the parsed resources, and whether there is an error, do not depend on the map order the annotations are read in |
| Mutators.SidecarResources | components/odh-notebook-controller/controllers/notebook_mutating_webhook.go:170-179 | accepted resources are never negative and no request exceeds its limit |
| MutatingWebhook.InjectKubeRbacProxy | components/odh-notebook-controller/controllers/notebook_mutating_webhook.go:186-347 | on an error the notebook is untouched; otherwise the first sidecar container and its two volumes are replaced in place or appended, and the service account set |
| MutatingWebhook.SetContainerImageFromRegistry | components/odh-notebook-controller/controllers/notebook_mutating_webhook.go:899-1006 | the pass over the containers, each seen as the writes before it left it, errors and changes the template exactly as the image step says |
| Mutators.Newest | components/odh-notebook-controller/controllers/notebook_mutating_webhook.go:966-974 | the chosen image belongs to the tag and none of the tag's items is more recent |
| MutatingWebhook.InjectVars | components/odh-notebook-controller/controllers/notebook_mutating_webhook.go:836-857 | updating in place and appending the collected rest amounts to setting the variables one by one, in whatever order they come |
| MutatingWebhook.InjectCertConfig | components/odh-notebook-controller/controllers/notebook_mutating_webhook.go:781-893 | certificate volume, variables and mount of the notebook container; every other container untouched |
| MutatingWebhook.InjectProxyConfigEnvVars | components/odh-notebook-controller/controllers/notebook_mutating_webhook.go:682-731 | the cluster proxy variables of the notebook container |
| MutatingWebhook.MountPipelineRuntimeImages | components/odh-notebook-controller/controllers/notebook_runtime.go:216-285 | an unreadable ConfigMap is an error, a missing or empty one changes nothing, a usable one is mounted once in every container |
| MutatingWebhook.MountElyraRuntimeConfigSecret | components/odh-notebook-controller/controllers/notebook_dspa_secret.go:403-478 | the Elyra secret is mounted in every container that has nothing of its name or at its path |
| MutatingWebhook.MountFeastConfig | components/odh-notebook-controller/controllers/notebook_feast_config.go:53-117 | the volume is listed even when the notebook container is missing and the call fails |
| MutatingWebhook.UnmountFeastConfig | components/odh-notebook-controller/controllers/notebook_feast_config.go:120-146 | the first Feast volume and the notebook container's first Feast mount are cut, nothing else |
| MutatingWebhook.SetNotebookContainerEnvVar | components/odh-notebook-controller/controllers/notebook_mlflow.go:59-80 | the first occurrence is set or the variable appended; failure exactly when no container carries the notebook's name |
| MutatingWebhook.RemoveNotebookContainerEnvVar | components/odh-notebook-controller/controllers/notebook_mlflow.go:83-98 | one occurrence goes, the rest of the list stays in order |
| MutatingWebhook.HandleMLflowEnvVars | components/odh-notebook-controller/controllers/notebook_mlflow.go:287-330 | the MLflow variables of the notebook container follow the trimmed annotation and the known host |
| MutatingWebhook.ApplyProbeTimeout | components/odh-notebook-controller/controllers/notebook_probe_timeout.go:71-87 | both probes of the first container of that name, where present; nothing else |
| MutatingWebhook.MaybeRestartRunningNotebook | components/odh-notebook-controller/controllers/notebook_mutating_webhook.go:556-615 | pending exactly when a running workbench's unchanged template would be changed by the webhook itself, and then the submitted template comes back |
| MutatingWebhook.Handle | components/odh-notebook-controller/controllers/notebook_mutating_webhook.go:383-545 | the handler's loops, run in place, accept and produce what the admission model says |
| Workbench.MutateServes | components/odh-notebook-controller/controllers/notebook_mutating_webhook.go:415-525 | the whole pod after every accepted mutation, for every map order: each certificate, proxy and MLflow variable by name and value, each managed mount and volume, all others as they were, the configured seconds on both probes of notebook container and sidecar, the sidecar's flags and mounts, the service account |
| Workbench.WhenServed | components/odh-notebook-controller/controllers/notebook_mutating_webhook.go:415-525 | past the image step a mutation is accepted exactly when the objects can be read, the timeout is a number, and a sidecar asked for has TLS flags and sensible resources |
| Workbench.ResourcesAre | components/odh-notebook-controller/controllers/notebook_mutating_webhook.go:135-182 | each of the four resources is a tenth of a core or 64 MiB where its annotation is missing or empty and the quantity between its blanks otherwise; accepted exactly when none is negative and no request exceeds its limit |
| Workbench.TrackingUriIs | components/odh-notebook-controller/controllers/notebook_mlflow.go:127-143 | the tracking address is the gateway, with https unless it has a scheme, and one segment for the instance |
| Workbench.InstanceIsTracked | components/odh-notebook-controller/controllers/notebook_mlflow.go:127-143 | an address so formed has a scheme and the gateway's host, and its last segment is "mlflow" for the instance "mlflow" and "mlflow-" with the name for any other |
| Selection.SelectedImageArrives | components/odh-notebook-controller/controllers/notebook_mutating_webhook.go:899-1006 | for a selection of stream and tag: where the stream, in the namespace of the annotation or the controller's own if that is missing or blank, has the tag with items, container 0 ends with a newest item of the first such tag and the first JUPYTER_IMAGE with the selection; where it has not, all images stay; a stream without status is an error |
| Selection.ImagesStay | components/odh-notebook-controller/controllers/notebook_mutating_webhook.go:899-932 | without a selection, or with an image of the internal registry, no image changes |
| Selection.SelectionRefused | components/odh-notebook-controller/controllers/notebook_mutating_webhook.go:899-945 | a selection without exactly one colon, or without a container of the notebook's name, is an error |
| Pipeline.MutateSucceeds | components/odh-notebook-controller/controllers/notebook_mutating_webhook.go:415-525 | a mutation is accepted exactly when the image step succeeds and every object it depends on can be read and represented |
| Pipeline.MutateTwice | components/odh-notebook-controller/controllers/notebook_mutating_webhook.go:415-525 | run again on its own output under any map order, the webhook succeeds and returns it unchanged if and only if the submitted template was regular |
| Witnesses.FeastTwice | components/odh-notebook-controller/controllers/notebook_feast_config.go:120-146 | a template with two Feast volumes that a second run changes again |
| Witnesses.FlagTwice | components/odh-notebook-controller/controllers/notebook_mlflow.go:83-98 | a template with an MLflow variable twice that a second run changes again |
| Witnesses.FeastAtElyraPath | components/odh-notebook-controller/controllers/notebook_dspa_secret.go:440-478 | a template whose Feast mount at the Elyra path makes the second run add what the first did not |
| Witnesses.OrdersExist | components/odh-notebook-controller/controllers/notebook_mutating_webhook.go:787-794 | the map orders the witnesses quantify over exist |
| EnvPipeline.OwnEnvTwice | components/odh-notebook-controller/controllers/notebook_mlflow.go:287-330 | a second pass over the variables, in any order, changes nothing exactly on regular lists |
| MountPipeline.OwnMountsTwice | components/odh-notebook-controller/controllers/notebook_feast_config.go:120-146 | a second pass over the mounts changes nothing exactly when the Elyra mount survived the first |
| Admission.GateIsExact | components/odh-notebook-controller/controllers/notebook_mutating_webhook.go:556-615 | the stored template changes only for an owner who stops, restarts or edits; the pending mark says exactly when a change was held back; no other annotation moves |
| Admission.UnchangedConfiguration | components/odh-notebook-controller/controllers/notebook_mutating_webhook.go:527-545 | an update that keeps template and request under an unchanged cluster is never marked pending, for any map orders |
| Admission.GateOnKeys | components/odh-notebook-controller/controllers/notebook_mutating_webhook.go:556-615 | for every annotation map: with neither "kubeflow-resource-stopped" nor "notebooks.opendatahub.io/notebook-restart" on it, a submission that repeats the stored template keeps it, marked with the reason exactly if the webhook would have changed it; any other one becomes the mutated template, unmarked |
| Admission.GoingAwayReleases | components/odh-notebook-controller/controllers/notebook_mutating_webhook.go:571-580 | setting either of the two keys lets everything held back through and clears the mark, exactly when the mutated template passes the security check, which it does when the stored one would |
| Admission.AcceptedExactly | components/odh-notebook-controller/controllers/notebook_validating_webhook.go:41-98 | what the mutating webhook produces is stored if and only if it uses no host namespace, host path, privilege or foreign service account and a running workbench keeps a named MLflow instance |
| Admission.Validate | components/odh-notebook-controller/controllers/notebook_validating_webhook.go:41-98 | the handler accepts exactly what passes the security check and does not take MLflow from a running workbench |
| PodSecurity.ValidatePodSpecSecurity | components/odh-notebook-controller/controllers/notebook_podspec_validation.go:23-72 | accepted exactly without host namespaces, host paths, privileged containers of any kind and foreign service accounts |
| PodSecurity.MutateSecure | components/odh-notebook-controller/controllers/notebook_podspec_validation.go:23-72 | a mutated template passes if and only if every shortcoming of the submitted one is in something the mutation replaces or removes; one that passes still does |
| Admission.MlflowStaysConsistent | components/odh-notebook-controller/controllers/notebook_validating_webhook.go:77-98 | both webhooks together keep: the MLflow flag in the notebook container comes with an instance, also when the mutation was held back |
| Admission.MlflowLeftOver | components/odh-notebook-controller/controllers/notebook_mlflow.go:326-330 | without an instance, on a new notebook or an update that is not held back, the flag is left over if and only if it was submitted more than once |
| Witnesses.FlagLeftOver | components/odh-notebook-controller/controllers/notebook_mlflow.go:326-330 | a new notebook that is submitted with the flag twice and keeps one |
| Runs.NoSurpriseRestart | components/odh-notebook-controller/controllers/notebook_mutating_webhook.go:556-615 | in every run the template at two moments is the same unless in between somebody stopped, restarted, edited or erased the workbench, or it was stopped or restarting when TLS flags were written, or the certificate pass patched it |
| Runs.RunningStaysPut | components/odh-notebook-controller/controllers/kube_rbac_proxy_tls.go:357-401 | a running workbench nobody stops, restarts, deletes or edits keeps its template through a run of cluster changes and controller passes if and only if no certificate pass takes effect on it |
| Runs.UnsetMovesExactly | components/odh-notebook-controller/controllers/notebook_controller.go:418-430 | the certificate pass moves the template exactly when the ConfigMap cannot be read, a volume uses it, nothing panics, the mutation can be carried out and the webhook does not bring the same template back |
| CertPass.UnsetReleases | components/odh-notebook-controller/controllers/notebook_controller.go:677-768 | the patch is accepted, running or not, and the template becomes all that the webhook makes of the unset one, with the pending mark gone |
| Witnesses.RunningLosesTemplate | components/odh-notebook-controller/controllers/notebook_controller.go:424-426 | a running workbench with something held back, whose template the certificate pass changes, that included |
| Witnesses.EditLost | components/odh-notebook-controller/controllers/notebook_controller.go:706-768 | a patch from an older template that removes a variable its owner has added since |
| Runs.SecureAlongRuns | components/odh-notebook-controller/controllers/notebook_validating_webhook.go:49-51 | in every state every run reaches the stored template passes the security check |
| Interleaving.PassIsRun | components/odh-notebook-controller/controllers/kube_rbac_proxy_tls.go:349-391 | a pass with its reads, retries and losses among the writes of others leaves the store as their steps and then at most one of its own do; it has written only if it took that step |
| Interleaving.InterferedPassStays | components/odh-notebook-controller/controllers/kube_rbac_proxy_tls.go:349-391 | a pass that is interfered with leaves the template alone unless one of those steps may move it |
| Runs.MlflowAlongRuns | components/odh-notebook-controller/controllers/notebook_mlflow.go:287-330 | in every state every run reaches the MLflow flag comes with a named instance |
| ProxyTls.CurvePreferenceIds | components/odh-notebook-controller/controllers/kube_rbac_proxy_tls.go:228-250 | usable curves in profile order; a strict list without any is refused |
| ProxyTls.Tls12CipherNames | components/odh-notebook-controller/controllers/kube_rbac_proxy_tls.go:252-272 | usable suites in profile order; refused when there is none or no HTTP/2 suite |
| ProxyTls.KeepMapIsFilter | components/odh-notebook-controller/controllers/kube_rbac_proxy_tls.go:228-272 | both lists are order-preserving filters: increasing positions, every usable entry, nothing else |
| ProxyTls.RuntimeCipherIds | components/odh-notebook-controller/controllers/kube_rbac_proxy_tls.go:76-88 | the runtime's usable suite ids: all secure suites and the insecure ones without RC4 |
| ProxyTls.ResolveSound | components/odh-notebook-controller/controllers/kube_rbac_proxy_tls.go:144-218 | every successful resolution, bound or Intermediate, yields one version of 1.2 or 1.3, suites exactly below 1.3 with one HTTP/2 can use, curves exactly when a group is usable, all of it safe, and nothing but TLS flags |
| ProxyTls.FlagsReadBack | components/odh-notebook-controller/controllers/kube_rbac_proxy_tls.go:186-218 | what the proxy reads back from resolved flags is the profile, filtered: one version of 1.2 or 1.3, the suites only below 1.3, the curves if any |
| ProxyTls.FlagsSafe | components/odh-notebook-controller/controllers/kube_rbac_proxy_tls.go:274-307 | every suite handed over is one this runtime negotiates below TLS 1.3 and not RC4; every curve is the profile's, and approved in FIPS mode |
| ProxyTls.FailClosed | components/odh-notebook-controller/controllers/kube_rbac_proxy_tls.go:144-176 | a profile that must be honoured is served exactly when version, groups and ciphers can be represented, and is never replaced by Intermediate |
| TlsOnTheWire.CurvesAreOffered | components/odh-notebook-controller/controllers/kube_rbac_proxy_tls.go:57-72 | the ids read back from the flags are those of the profile's named groups in profile order, each its own, in FIPS mode of 23, 24 and 25 alone and otherwise of 29 and 4588 as well |
| TlsOnTheWire.SuitesAreServed | components/odh-notebook-controller/controllers/kube_rbac_proxy_tls.go:252-307 | the suites read back are the profile's entries that this runtime can negotiate below 1.3, in profile order, with one of the two HTTP/2 asks for; none are named at 1.3 |
| TlsOnTheWire.WhoseProfile | components/odh-notebook-controller/controllers/kube_rbac_proxy_tls.go:144-184 | which profile is served, and that it is refused exactly when it is missing, has no version of 1.2 or 1.3, no HTTP/2 suite at 1.2, or, where it must be honoured, groups none of which may be offered |
| ProxyTls.MergeTlsArgs | components/odh-notebook-controller/controllers/kube_rbac_proxy_tls.go:309-324 | the arguments that are not TLS flags, in order, then the resolved flags |
| ProxyTls.MergeSettles | components/odh-notebook-controller/controllers/kube_rbac_proxy_tls.go:309-318 | other arguments survive a merge, merging again changes nothing, earlier flags leave no trace |
| TlsReconcile.SyncReconciledNotebook | components/odh-notebook-controller/controllers/kube_rbac_proxy_tls.go:440-459 | pending mark, proxy arguments and version of the in-memory notebook become the stored ones |
| TlsReconcile.Revise | components/odh-notebook-controller/controllers/kube_rbac_proxy_tls.go:349-438 | what one pass does to the notebook it has just read, and whether it writes |
| TlsReconcile.ReconcileKubeRbacProxyTls | components/odh-notebook-controller/controllers/kube_rbac_proxy_tls.go:349-391 | the retried reconcile against a store with versions: one non-conflicting attempt decides, and memory is synchronised with what the store then holds |
| TlsReconcile.PlanIsNarrow | components/odh-notebook-controller/controllers/kube_rbac_proxy_tls.go:357-401 | a write touches the first proxy container's flags and the pending mark only, keeps every other argument in order, and leaves a running workbench's template alone |
| TlsReconcile.OneWriteSettles | components/odh-notebook-controller/controllers/kube_rbac_proxy_tls.go:349-431 | after one accepted write through the webhooks nothing is left to write, stopped, restarting or running |
| TlsSettled.PlanBringsOrder | components/odh-notebook-controller/controllers/kube_rbac_proxy_tls.go:349-438 | without a sidecar a pass does nothing, a notebook in order it leaves alone, any other it brings in order: flags on a stopped or restarting workbench, the mark set or cleared on a running one, and nothing else |
| TlsSettled.PassBringsOrder | components/odh-notebook-controller/controllers/kube_rbac_proxy_tls.go:349-438 | an undisturbed pass through the webhooks leaves the store in order, on a stopped or restarting workbench with the webhook's own flags and these behind them; it does nothing without injection and fails without resolved flags |
| TlsSettled.ConflictsAreRetried | components/odh-notebook-controller/controllers/kube_rbac_proxy_tls.go:357-391 | conflicting attempts are repeated, up to the fifth |
| TlsReconcile.AtMostOneWrite | components/odh-notebook-controller/controllers/kube_rbac_proxy_tls.go:349-431 | for a fixed profile any number of passes writes at most once, whichever calls fail and whatever else the cluster does |
| Interleaving.PassesWriteOnce | components/odh-notebook-controller/controllers/kube_rbac_proxy_tls.go:349-391 | the same for whole passes with their retries |
| TlsReconcile.WebhooksKeepIdentity | components/odh-notebook-controller/controllers/kube_rbac_proxy_tls.go:371-384 | no admission changes name or namespace, which is what the retried reconcile asks of its webhooks |
| TlsReconcile.OthersKept | components/odh-notebook-controller/controllers/kube_rbac_proxy_tls.go:309-318 | through the webhook other proxy arguments are kept if and only if they were the webhook's own |
| TlsReconcile.WithoutInjection | components/odh-notebook-controller/controllers/kube_rbac_proxy_tls.go:349-431 | injection is switched off between the reads of a pass on a running workbench: the pass writes, one that starts from what it stored does not, and one toggled the same way plans a write if and only if the webhook has nothing to change |
| Witnesses.TogglingWritesTwice | components/odh-notebook-controller/controllers/kube_rbac_proxy_tls.go:406-431 | a workbench whose owner toggles injection around two passes, both of which write and leave the store as it was |
| Witnesses.ArgumentLost | components/odh-notebook-controller/controllers/kube_rbac_proxy_tls.go:309-318 | a stopped workbench whose own proxy argument is submitted by the controller and dropped by the webhook |
| TlsReconcile.MemoryAgrees | components/odh-notebook-controller/controllers/kube_rbac_proxy_tls.go:440-459 | after synchronising, arguments and pending mark in memory are the stored ones and nothing else has changed |
| TlsReconcile.SettledIsSynced | components/odh-notebook-controller/controllers/kube_rbac_proxy_tls.go:357-391 | a reconcile that ends well on a stored notebook with a sidecar has synchronised with it |
| CertUnset.DeleteWhileRanging | components/odh-notebook-controller/controllers/notebook_controller.go:726-738 | the loop over the old slice header and the shifted array: what survives, and exactly when it panics |
| CertUnset.SurviveIsFilter | components/odh-notebook-controller/controllers/notebook_controller.go:726-738 | all matches go and nothing else does, exactly when no two matches are neighbours |
| Witnesses.NeighbourSurvives | components/odh-notebook-controller/controllers/notebook_controller.go:726-738 | two neighbouring certificate variables of which one survives |
| Witnesses.TwiceLastPanics | components/odh-notebook-controller/controllers/notebook_controller.go:726-738 | a container on which unsetting panics |
| CertUnset.UnsetNotebookCertConfig | components/odh-notebook-controller/controllers/notebook_controller.go:706-758 | the template after unsetting, and an untouched notebook after a panic |
| CertUnset.UnsetOnNames | components/odh-notebook-controller/controllers/notebook_controller.go:706-758 | of each of the six certificate variables and of the certificate mounts one at the least goes, if there is any, nothing of any other name, and the first volume of the bundle's ConfigMap; other containers are untouched |
| CertPass.PatchesExactly | components/odh-notebook-controller/controllers/notebook_controller.go:418-430 | a patch is sent exactly if the ConfigMap cannot be read, the template read mounts the bundle and unsetting does not panic; containers and volumes are sent as a whole where unsetting changes what was read, and stay as stored otherwise |
| CertUnset.CertRoundTrip | components/odh-notebook-controller/controllers/notebook_mutating_webhook.go:781-893 | injecting and unsetting restores the template, for any order of the variables, if and only if it bore no traces of an injection |
| Lifecycle.NoLeakedRoute | components/odh-notebook-controller/controllers/notebook_controller.go:231-405 | over every interleaving, with calls lost before or after they took effect, a route of ours exists only while its notebook does and carries the HTTPRoute finalizer |
| Lifecycle.GrantAlwaysHeld | components/odh-notebook-controller/controllers/notebook_referencegrant.go:81-126 | over every run a reconciled notebook that is not being deleted has its namespace's grant |
| Lifecycle.NoGrantLeft | components/odh-notebook-controller/controllers/notebook_referencegrant.go:130-184 | if notebooks are deleted only once they hold the finalizer, a namespace without notebooks holds no grant |
| Lifecycle.GrantLeftExactly | components/odh-notebook-controller/controllers/notebook_referencegrant.go:130-184 | over every run a namespace that ends up without notebooks holds a grant if and only if an unfinalized notebook was deleted where nothing else answered for the grant, and nothing revived the namespace afterwards |
| Lifecycle.UnguardedDelete | components/odh-notebook-controller/controllers/notebook_controller.go:359-405 | a deletion orphans the grant exactly when the notebook is not finalized, the grant is there and nothing else answers for it |
| Lifecycle.GrantLeftBehind | components/odh-notebook-controller/controllers/notebook_referencegrant.go:130-161 | a run from the empty cluster that ends without notebooks and with a grant |
| Lifecycle.StaleCount | components/odh-notebook-controller/controllers/notebook_referencegrant.go:166-184 | counting and deleting as two calls would take the grant from a notebook reconciled in between, from every state |
| Progress.ReconcileProvides | components/odh-notebook-controller/controllers/notebook_controller.go:359-528 | an undisturbed reconcile leaves the notebook with its finalizers, its namespace with the grant, and its route unless the name was taken |
| Progress.RoutesSwitched | components/odh-notebook-controller/controllers/notebook_route.go:144-232 | deleting, creating and updating in a row leaves the old name gone and the new one labelled for the notebook, and no other name touched |
| Progress.DeletionReleases | components/odh-notebook-controller/controllers/notebook_controller.go:231-357 | an undisturbed deletion takes the notebook's routes and no other, the grant exactly if no other notebook of the namespace stays, and the notebook unless foreign finalizers hold it |
| Progress.LostAnswers | components/odh-notebook-controller/controllers/notebook_controller.go:231-357 | a write lost on its way changes no object, one whose answer is lost changes what the answered one does |
| Deletion.Cluster.DeleteHTTPRouteForNotebook | components/odh-notebook-controller/controllers/notebook_route.go:307-343 | success exactly when every call was answered; then no labelled route is left; other notebooks' routes stay |
| Deletion.Cluster.DeleteReferenceGrantIfLastNotebook | components/odh-notebook-controller/controllers/notebook_referencegrant.go:130-184 | the grant goes exactly when no other notebook of the namespace stays |
| Deletion.Cluster.DeletePass | components/odh-notebook-controller/controllers/notebook_controller.go:231-357 | each cleanup succeeds exactly when all of its own calls are answered; exactly the finalizers whose cleanup succeeded or was not needed are removed, in place; failure exactly when some step failed; a failing OAuth step ends the pass with nothing else touched; other notebooks' routes and grants they need stay; no finalizer goes while its routes, grant, binding or OAuth client are there; with all calls answered all four go |
| Deletion.FiveAttempts | components/odh-notebook-controller/controllers/notebook_controller.go:305-325 | a write of finalizers goes through exactly if one of five attempts is answered and those before it only met a newer version |
| Deletion.ReconcileUntilReleased | components/odh-notebook-controller/controllers/notebook_controller.go:231-357 | once calls stop failing the passes end with none of the controller's finalizers, and with all the others in order |
| Routes.IngressConfigRequests | components/odh-notebook-controller/controllers/notebook_controller.go:976-1011 | the memoised loop returns nothing for unchanged data, all notebooks if some lookup fails, and otherwise those whose gateway changed |
| Routes.IncrementalEqualsFull | components/odh-notebook-controller/controllers/notebook_controller.go:976-1011 | reconciling only the returned notebooks takes every route from the old configuration to the new one, whichever lookups fail while comparing; one whose own lookup fails while reconciling keeps its route |
| Routes.FullOnceAnswered | components/odh-notebook-controller/controllers/notebook_route.go:144-160 | where the lookups of the reconciles answer, every route matches the new configuration |
| Routes.ListingFailed | components/odh-notebook-controller/controllers/notebook_controller.go:976-1011 | a listing that fails reconciles nothing, and exactly the notebooks whose gateway changed are left on the old configuration |
| Routes.OnlyTheConcerned | components/odh-notebook-controller/controllers/notebook_controller.go:1003-1009 | without lookup failures every returned notebook's route does change |
| Routes.OwnModeKept | components/odh-notebook-controller/controllers/notebook_route.go:371-386 | the current mode's route is never taken for a conflicting one, the other mode's always is |
| Routes.ConflictsByNameOrPort | components/odh-notebook-controller/controllers/notebook_route.go:371-386 | a route is of one mode or the other by its first backend's name or port: the notebook's own and 8888, the proxy's service and 8443 |
| Routes.DesiredLeads | components/odh-notebook-controller/controllers/notebook_route.go:62-132 | the desired route has the two labels, the resolved gateway alone as parent, one rule whose path splits into "notebook", namespace and name, and one backend: the notebook's service at 8888, or with authentication the proxy's at 8443 |
| Routes.AssignedFrom | components/odh-notebook-controller/controllers/notebook_route.go:274-297 | the gateway of a notebook is resolved among the configured ingresses, with the default one added where none of them is marked as default, and among the default alone where none are configured; a list that does not parse is invalid |
| Routes.RouteNamesCollide | components/odh-notebook-controller/controllers/notebook_route.go:65 | different notebooks can claim one route name |
| RouteReconcile.RouteStore.EnsureConflictingHTTPRouteAbsent | components/odh-notebook-controller/controllers/notebook_route.go:347-402 | success exactly when every call was answered; then no route of the other mode is left; nothing but such routes is ever deleted |
| RouteReconcile.RouteStore.ReconcileHTTPRoute | components/odh-notebook-controller/controllers/notebook_route.go:144-232 | success exactly when the lookup answers, the calls it needs are answered and at most one route is labelled for the notebook; then exactly the desired route, unless there was none and its name was taken, or none when the assignment cannot be resolved; several labelled routes are an error that changes nothing |
| RouteReconcile.RouteStore.ReconcileMode | components/odh-notebook-controller/controllers/notebook_controller.go:474-528 | with every call answered cleanup and reconcile succeed exactly when the lookup answers and the assignment is unresolvable or leaves at most one route of the mode, and then converge from any set of routes unless there was none of the mode and the name was taken; two routes of the mode stay |
| RouteReconcile.NameGiven | components/odh-notebook-controller/controllers/notebook_route.go:62-84 | a new route is named nb, namespace and name, or by a generated name where that is longer than 63 characters |
| RouteReconcile.PassesStayStuck | components/odh-notebook-controller/controllers/notebook_route.go:187-189 | with two routes of one mode no pass ever succeeds |
| RouteReconcile.TwoRoutesOfOneMode | components/odh-notebook-controller/controllers/notebook_route.go:187-189 | such a set of routes, for every notebook and in either mode |
| Culler.GetNotebookRecentTime | components/notebook-controller/controllers/culling_controller.go:338-358 | the latest instant of the list without its fraction, or nothing when some entry does not parse |
| Culler.ObjectMeta.CheckForCulling | components/notebook-controller/controllers/culling_controller.go:172-197 | the annotations one check writes, and that it panics exactly on a missing annotation map |
| Culler.Reconcile | components/notebook-controller/controllers/culling_controller.go:87-204 | which of initialise, check and forget a reconcile amounts to, given what each of its reads finds, and that it panics exactly when a due check finds no annotations at all |
| Culler.ReconcileOnKeys | components/notebook-controller/controllers/culling_controller.go:87-204 | what a reconcile leaves, key by key: both times gone on a stopped workbench or one without a pod, set where one was missing, a check where the stamp is a period old, and otherwise nothing written |
| Culler.StepsAreLegal | components/notebook-controller/controllers/culling_controller.go:87-204 | with an advancing clock and nobody else writing its annotations every reconcile is a legal piece of the runs of the idle bound |
| Culler.ActivityIsMax | components/notebook-controller/controllers/culling_controller.go:380-437 | last-activity becomes the maximum of its old value, or now if a kernel is busy, and of the lists that parse |
| Culler.ActivityAdvances | components/notebook-controller/controllers/culling_controller.go:360-437 | last-activity never goes back and stays behind the clock when reports do |
| Culler.CullBound | components/notebook-controller/controllers/culling_controller.go:208-242 | over every run: a stop only when the clock is past every accepted activity by more than the idle time less a second, never over a stop already there, and checks more than a period less a second apart |
| Culler.CullsWhenIdle | components/notebook-controller/controllers/culling_controller.go:221-242 | over every run a check on a workbench without a stop sets it, to the clock's whole seconds, if and only if the clock is past the whole seconds of the latest accepted activity by more than the idle time |
| Culler.IdleIsStopped | components/notebook-controller/controllers/culling_controller.go:221-242 | in particular whenever the clock is past every accepted activity by more than the idle time |
| Culler.CheckWrites | components/notebook-controller/controllers/culling_controller.go:172-197 | what one check writes, key by key |
| Culler.DueByStamp | components/notebook-controller/controllers/culling_controller.go:208-219 | a check is due exactly when the stamp of the last one, or the zero time where it does not parse, is a period ago; without a stamp never |
| NetworkPolicies.DropControllers | components/odh-notebook-controller/controllers/notebook_network.go:170-177 | the in-place filter keeps the references without control, in order |
| NetworkPolicies.PolicyStore.ReconcileAllNetworkPolicies | components/odh-notebook-controller/controllers/notebook_network.go:51-73 | each policy handled ends repaired or newly owned; where a call failed it is that or left alone; a foreign one, also one that came in between, is left alone and reported; with no failing call only foreign ones are left over |
| NetworkPolicies.AdoptionIsExact | components/odh-notebook-controller/controllers/notebook_network.go:144-203 | this notebook ends in control, as the only controller unless it was one of several before, and every owner not naming it and not a stale controller is kept in order |
| NetworkPolicies.ForeignExactly | components/odh-notebook-controller/controllers/notebook_network.go:118-165 | hands off exactly when the first controller is neither this notebook nor a kubeflow.org Notebook of its name in one of the three versions |
| NetworkPolicies.RepairOnKeys | components/odh-notebook-controller/controllers/notebook_network.go:144-203 | labels and rules become the desired ones; owners stay where this notebook is in control, and otherwise it becomes the only controller beside every owner that neither controls nor names it |
| NetworkPolicies.RepairedIsFinal | components/odh-notebook-controller/controllers/notebook_network.go:144-203 | a repaired policy needs no further repair and is not foreign |
| RuntimeImages.KeyIsNormal | components/odh-notebook-controller/controllers/notebook_runtime.go:167-182 | a key is empty, or lower-case letters, digits, dots, underscores and single inner dashes followed by the suffix |
| RuntimeImages.SameKeyAgain | components/odh-notebook-controller/controllers/notebook_runtime.go:174-182 | sanitising the stem of a key gives the key again |
| RuntimeImages.HasKey | components/odh-notebook-controller/controllers/notebook_runtime.go:172-182 | a name has a key exactly when one of its characters survives |
| RuntimeImages.KeySpellsName | components/odh-notebook-controller/controllers/notebook_runtime.go:167-182 | a key spells the surviving characters of the name in lower case and in order, with one dash exactly where something between two of them is lost, and ends in .json |
| ReconciliationLock.StatefulSet.CopyFields | components/common/reconcilehelper/util.go:107-134 | all owned fields are copied; a difference is reported exactly when an entry already there changes, or replicas, or the pod spec |
| ReconciliationLock.StoredStays | components/common/reconcilehelper/util.go:107-134 | what is stored stays exactly if it is the desired, or differs in metadata only and each stored entry is desired, or empty and not desired |
| ReconciliationLock.AddedLabelIsMissed | components/common/reconcilehelper/util.go:109-114 | a label only the desired object has never arrives |
| ReconciliationLock.ReconcileStatefulSet | components/notebook-controller/controllers/notebook_controller.go:151-204 | what the loop over a found or missing StatefulSet stores is what the lemma on replicas is about |
| ReconciliationLock.ReplicasArrive | components/notebook-controller/controllers/notebook_controller.go:151-204 | replicas and pod spec always arrive; metadata do, or differ only in entries the copy does not notice |
| ReconciliationLock.LockHoldsDown | components/odh-notebook-controller/controllers/notebook_controller.go:407-561 | over every run a StatefulSet with replicas belongs to a notebook for which an ODH reconcile got through every stage its settings ask for, each named |
| ReconciliationLock.UnlockedStarts | components/notebook-controller/controllers/notebook_controller.go:433-437 | after the unlock the next pass of the notebook-controller starts the workbench |
| ReconciliationLock.OnlyTheLockComesOff | components/odh-notebook-controller/controllers/notebook_controller.go:407-561 | a reconcile nobody interferes with takes the stop annotation off if it is the lock and all stages succeed, and never takes off any other |

## Left out

- Client transport, caches and stale reads, workqueues, leader election, garbage collection and API-server defaulting are not modelled; reads are linearizable and there is one worker per notebook. No claim is made that an HTTPRoute is not written.
- HTTP calls to Jupyter, JSON, PEM and x509 parsing and gateway lookup are inputs: their results are parameters. `resource.ParseQuantity` is a map from texts to numbers, `time.Parse` a choice between an instant and no instant.
- `ingressassignment.Resolve` is a function of namespace and ingress list that answers with an ingress, unknown, invalid or a failed lookup.
- Go's and OpenShift's TLS tables are a parameter (`ProxyTls.Tables`); suite names are assumed to have no comma and ids to be unique. `getStructDiff` is a parameter: some text, different from the TLS reconcile's own.
- Semantic equality of pod templates is taken as equality; nil and empty lists and maps are one thing, except for the culler's annotation map, where the difference is a panic.
- Pod templates are reduced to what the code reads or writes; ports, security contexts but for privilege, and the rest of probes and volumes are one text.
- Runs.RunningStaysPut: a certificate pass that finds the ConfigMap missing has read the template that is stored; one that has read an older one is covered by Runs.NoSurpriseRestart and Witnesses.EditLost. That a move is a move, the second direction, is for stored templates that pass the security check, as all reachable ones do.
- Interleaving.PassIsRun: the events of others during a pass leave the notebook there; a pass over a notebook that is erased meanwhile is not described.
- Of several equally recent image stream items the first is taken; the source sorts with an unstable sort.
- SyncRuntimeImagesConfigMap, SyncElyraRuntimeConfigSecret, CreateNotebookCertConfigMap and the role binding reconcilers: their results are what the webhook then finds in its snapshot.
- Lifecycle.NoLeakedRoute: other actors may create, relabel and delete routes of their own and delete ours, but not relabel ours, and do not touch the controller's finalizers.
- Lifecycle.GrantAlwaysHeld: nobody but the controller deletes the grant, and counting and deleting are one step (see Lifecycle.StaleCount).
- Deletion.Cluster.DeletePass: in which order a list names the routes is open, so which of several routes are gone after a failing call is not said. The ClusterRoleBinding is cleaned up only while inject-auth is on, as in the code; with it off the binding stays. Other actors' writes during the pass are covered in Lifecycle only.
- Pipeline.MutateTwice: a notebook named kube-rbac-proxy is excluded.
- Workbench.MutateServes: a notebook named kube-rbac-proxy is excluded; variables, mounts and volumes are told name by name, so not in which order those of different names stand.
- Selection.SelectedImageArrives: a notebook named kube-rbac-proxy is excluded; the container of that name is the webhook's own.
- TlsSettled.PassBringsOrder: a notebook named kube-rbac-proxy is excluded, and the webhooks are taken to accept the write.
- Runs.MlflowAlongRuns: MLflow stays enabled along the run; disabling it skips the cleanup by design. A template the certificate pass has read has the flag at most once, as every template of the run has.
- Culler.CullBound: nobody else writes the culler's two annotations, the clock is monotone and reported activity is not ahead of it.
- ReconciliationLock.LockHoldsDown: users do not touch the stop annotation before the first complete reconcile; that a notebook stays while an ODH worker is past its finalizers is taken from Lifecycle. What each stage does is left to the other modules; here it succeeds or ends the pass.
- Culler.Reconcile: retries on conflict and failing reads and writes are not part of this model; the annotations a panic would have written are lost, as in the code.
- ReconciliationLock.UnlockedStarts: names over 52 characters, and the rest of generateStatefulSet (labels, annotations, working directory, ports), are not part of this model.
- RuntimeImages.KeyIsNormal: lower-casing outside ASCII matters only where it lands inside ASCII, and only that is modelled.
- Route names over 63 characters get a generated name that is free; its prefix is not modelled.
- pkg/tls and pkg/culler of the notebook-controller repeat the same filters and comparisons.
