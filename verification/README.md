# The life of a CertificateRequest in horizon-issuer

horizon-issuer lets cert-manager get its certificates from an EverTrust Horizon server. This project
models its two controllers as a transition system over a versioned Kubernetes store and a remote
Horizon, and proves what holds in every run: over stale reads, refused and lost writes, remote errors,
edits by others, and any interleaving of the controllers. `dafny verify dfyconfig.toml` checks it.

## How it is built

A reconcile of a request reads a copy that may be old, may call Horizon, changes the copy in memory and
makes one write to it: `Update` if annotations changed, which drops the status, or `Status().Update`, which
drops the metadata. So one logical transition takes several reconciles. The model has four levels, and
each is proved to do what the next one says.

1. The program, as it is written. `Controller`, `Horizon` and `IssuerController` have the reconcilers
   and handlers as classes whose methods mutate the in-memory request (`Objects`, with a Go map as an
   object that can be shared or nil), run the condition loops (`ConditionLists`) and write to the API
   server. `Metadata` and `TrustChain` have the metadata merge and the PEM chain with their loops.
2. `RequestStep` and `IssuerHealth`: one reconcile as a function of the copy and of the answers. Every
   method of level 1 is proved equal to it, down to the contents of the store and the calls made.
3. `Protocol`: what the store keeps of a reconcile is one of eleven moves. `ReconcileMakesMove` and
   `MoveIsAllowed` are the refinement that everything later rests on.
   `Behaviour` writes out, from the answers to the effects, when the body is reached, how it ends, what it
   calls and what it stores in each case.
4. `World`: the store, both controllers and their environment. An action carries whatever the state
   does not determine, so a run is a sequence of actions and every lemma about `Exec` is about all runs.
   The store changes by the same functions that the API server of level 1 is proved to compute.
   `State.log` remembers what each reconcile read, was answered, called and wrote.

On `World` rest `Coherence` (versions name contents), `Lifecycle` (outcomes, write-once, absorbing
statuses), `Submissions` (the account of "run only once"), `Issued` and `Provenance` (annotations before
status, and the story of a certificate), `Renewal`, `Revocation`, `Gating` (the two controllers
together), `Failures`, `Convergence`, and `Witness` (concrete runs). `Keys` ties the abstract annotation
keys to the texts that the program writes, and `Issuance` is what a completed request writes.

## Assumptions

About the API server: a write is taken only from the current version of an object that is still there;
versions are never used twice, and a write that changes nothing keeps the version; `Update` persists
annotations and finalizers of a request, `Status().Update` its status; an object that is being deleted
goes away with its last finalizer, and its uid is not used again; no object has an empty name; a stored
list has one condition of each kind. A read returns any version that was ever stored under the name asked
for, or nothing; Ingresses are not stored in the model, so the one asked for may have any annotations. A write from the current version may be stored and acknowledged, stored with its
acknowledgement lost, or dropped; a submission may be accepted with its answer lost.

About the environment: it may create, edit and remove Certificates and Issuers, edit requests and
delete them. It does not change a request's request-id, certificate-id or certificate-name annotation,
nor its owner, team, contact and labels once it has a certificate-id; nor the conditions Ready, Approved
and InvalidRequest, our finalizer, or the certificate, CA and FailureTime in the status; it sets Denied
only while Approved is not set, and it does not touch last-certificate-id. A new request has no
request-id, no certificate-id, not our finalizer, and no status. `Witness` shows that all this can be met.

A parent without an Issuing condition makes the body panic. The deferred block still runs, so the model
has this as an ending of its own.

## Where the code does less than one might hope

- "Run only once" is exact only up to lost writes: `SubmissionAccount` has the exact count,
  `Witness.SubmittedTwice` a run with two submissions.
- A request that Horizon completed but whose chain could not be fetched, or is empty, is stored as
  approved without a certificate, and stays so: `StuckExactly`, `StuckOnLoneRoot`, `StuckForever`,
  `Witness.DeadEndIsReachable`. `ConvergesInStore` holds if and only if the request is not there.
- Issuance never removes a label, so the labels of a request are the sent ones if and only if it had no
  others: `LabelsRoundTrip`, `StoryOfCertificate`, and a run in `Witness.OtherLabelsStay`.
- The comment above `SubmitEnrollRequest` speaks of the annotation as keeping the submission from running
  again. That is so from the moment the annotation is stored, not from the moment Horizon accepts.
- A request that leaves the store was revoked if and only if annotations were stored on it for an Issuer
  that revokes: `RevokedBeforeLeaving`. One that was submitted while its Issuer did not revoke can go
  unrevoked: `Witness.RemovedUnrevoked`.
- A revocation from a stale copy names the right certificate unless the request was certified while it
  was being deleted, which an Issuer that revokes throughout never does: `DeletedHasOneCertificate`,
  `OwnIssuerNeverCertifies`. `Witness.RevokesAnother` has a run where it happens.

## Model

| member | source | states |
|---|---|---|
| `Protocol.ReconcileMakesMove` | internal/controller/certificaterequest_controller.go:204-249 | Although a reconcile computes a whole new object, what the API server keeps of it (the metadata of an `Update` or the status of a `Status().Update`) is, for every copy read and every answer, one of eleven changes |
| `Protocol.MoveIsAllowed` | internal/controller/certificaterequest_controller.go:177-202 | Each of these changes starts only where it may: registering and failing only from a request without an id, issuing only from a submitted one that is neither approved nor denied, certifying only when certificate-id is already there, and none but a revocation from a terminal one |
| `Protocol.ProcessMakesMove` | internal/controller/certificaterequest_controller.go:251-322 | The same for the body between the terminal checks and the end |
| `Protocol.SubmissionMakesMove` | internal/controller/certificaterequest_controller.go:299-318 | An accepted submission stores the id and nothing else (its Pending status is dropped by `Update`); a refused one stores Failed, whatever was noted about the metadata before; a failed parent lookup stores Pending |
| `Protocol.PollMakesMove` | internal/issuer/horizon/issuer.go:142-161 | A poll stores the issued annotations or, if they are there already, the certificate, and never both |
| `Protocol.WriteKeepsIdentity` | internal/controller/certificaterequest_controller.go:225-229 | A reconcile writes the object it read, from the version it read |
| `Protocol.SubmissionsOfMove` | internal/controller/certificaterequest_controller.go:297-319 | One reconcile has at most one submission accepted; if it registers an id there was one, and if one was accepted and no id registered, the answer was lost and the request fails |
| `Protocol.SubmissionShape` | internal/controller/certificaterequest_controller.go:299-318 | A submission makes no call, the template call, one renewal, or the template call and one enrolment, with the request's CSR and the merged metadata over the template |
| `Protocol.SubmittersAreOpen` | internal/controller/certificaterequest_controller.go:295-299 | A reconcile that read a request id, or a terminal, denied or approved request, submits nothing |
| `Protocol.CallsUseReadyIssuer` | internal/controller/certificaterequest_controller.go:132-155 | Every call goes through the client built from the Issuer that was read and found ready, and a submission passed that Issuer's DNS checks |
| `Protocol.RevokeIsAccepted` | internal/controller/certificaterequest_controller.go:325-347 | The finalizer is taken away only after Horizon accepted a revocation of the certificate in the status |
| `Protocol.RenewalNamesParent` | internal/controller/certificaterequest_controller.go:304-310 | A renewal names the last-certificate-id of the Certificate that was read, whose Issuing reason is ManuallyTriggered, Renewing or Expired |
| `Protocol.IssuanceFollowsPoll` | internal/issuer/horizon/issuer.go:142-161 | Annotations and certificates are stored only after a poll for the registered id was answered with completed and a chain that is not empty; the stored chain and CA are the ones built from it |
| `Protocol.ParentIdComesFromRequest` | internal/controller/certificaterequest_controller.go:231-243 | The id offered to the parent is never empty, and is the request's stored certificate-id or the one Horizon returned in this reconcile |
| `Protocol.PollOffersWrittenId` | internal/controller/certificaterequest_controller.go:231-243 | After a poll the parent is offered the certificate-id of the object that was written |
| `Behaviour.EntersExactly` | internal/controller/certificaterequest_controller.go:88-204 | The body is reached exactly by a request of our group whose Issuer is found and Ready=True, whose Secret and client are there, that is not one to be revoked, and that is not Ready=True, Ready=False/Failed or Ready=False/Denied; with the client of that Issuer, the Secret of the right namespace, and our finalizer in memory if the Issuer revokes |
| `Behaviour.DeletesExactly` | internal/controller/certificaterequest_controller.go:325-347 | The whole effect of a deletion: nothing without our finalizer; one revocation of the status certificate otherwise, an error if it is refused, and if not an update that takes off our finalizer and no other |
| `Behaviour.DeleteOnlyThen` | internal/controller/certificaterequest_controller.go:132-175 | A reconcile is a deletion exactly if the Issuer is ready and revokes and the request has a deletion timestamp |
| `Behaviour.LeavesExactly` | internal/controller/certificaterequest_controller.go:88-153 | Any other reconcile calls and writes nothing; it is an error exactly if our request names an unknown kind or a missing Issuer, or its ready Issuer lacks the Secret or the client |
| `Behaviour.DeniedEnds` | internal/controller/certificaterequest_controller.go:251-264 | A denied request is stored as Ready=False/Denied, with its own time of failure or the present one, before any call |
| `Behaviour.UnresolvedEnds` | internal/controller/certificaterequest_controller.go:266-292 | One name that does not resolve, or a CSR that does not decode, ends the reconcile with an error before any call |
| `Behaviour.ApprovedEnds` | internal/controller/certificaterequest_controller.go:294-322 | An approved request is left as it is, without a call |
| `Behaviour.PollEnds` | internal/issuer/horizon/issuer.go:142-161 | How a poll ends, for each answer: which error, a requeue, or done |
| `Behaviour.PollErrors` | internal/issuer/horizon/issuer.go:145-160 | A poll is an error exactly if it fails, if the status is none of the five, or if the request is completed and its chain cannot be fetched |
| `Behaviour.PollCalls` | internal/issuer/horizon/issuer.go:145-228 | It asks for the registered id, and for the chain of the certificate that was returned exactly if the request is completed |
| `Behaviour.PollStores` | internal/issuer/horizon/issuer.go:154-158 | Pending and approved answers store nothing new; denied and canceled ones store Denied=True with Horizon's reason |
| `Behaviour.CompletedStores` | internal/issuer/horizon/issuer.go:219-260 | What a completed poll stores, field by field: with an empty chain Approved and the CA; otherwise the annotations and the finalizer alone, or, if the annotations are there, Approved, Ready, the chain and the CA alone |
| `Behaviour.CompletedWrites` | internal/issuer/horizon/issuer.go:219-260 | The object that is written has all of these at once |
| `Behaviour.IssueWrites` | internal/issuer/horizon/issuer.go:239-245 | certificate-id, owner, team and contact each get their own value, a label the value of its last element, and every other key stays |
| `Behaviour.SubmissionEnds` | internal/controller/certificaterequest_controller.go:299-318 | How a submission ends, for each answer |
| `Behaviour.SubmissionErrors` | internal/issuer/horizon/issuer.go:53-90 | A submission is an error exactly if the parent is not found, or the submission is refused or its answer lost, or there is no template for an enrolment |
| `Behaviour.SubmissionCalls` | internal/controller/certificaterequest_controller.go:304-318 | Its calls, one by one: a renewal of the last certificate id exactly if the parent has one and its Issuing reason is ManuallyTriggered, Renewing or Expired, and otherwise the template and the enrolment |
| `Behaviour.SubmissionStores` | internal/issuer/horizon/issuer.go:84-104 | What a submission stores, field by field: the answered id and the finalizer; or InvalidRequest, Ready=False/Failed and the time of failure; or nothing after a panic |
| `Behaviour.SubmissionWrites` | internal/issuer/horizon/issuer.go:92-103 | The object that is written after an accepted submission has the id and Ready=False/Pending with the message of its kind |
| `Behaviour.RenewalDecides` | internal/controller/certificaterequest_controller.go:304-318 | A submission is a renewal if and only if the parent that was read has a last certificate id and one of the three Issuing reasons; it names that id and the request's CSR |
| `Behaviour.SubmittersProceed` | internal/controller/certificaterequest_controller.go:251-299 | A submission happens only after the denial check, the resolution of every name and the approval check, for a request without an id |
| `Behaviour.ErrorsExactly` | internal/controller/certificaterequest_controller.go:251-322 | The body ends in an error if and only if one of the listed causes holds of the request and the answers |
| `Behaviour.RetriesStore` | internal/controller/certificaterequest_controller.go:208-220 | Names, polls, unknown statuses and missing parents store Ready=False/Pending with their text and the time of failure, and nothing else |
| `Behaviour.UnfetchedStores` | internal/issuer/horizon/issuer.go:220-231 | A chain that cannot be fetched stores Approved=True with Ready=False/Pending |
| `Behaviour.WritesExactly` | internal/controller/certificaterequest_controller.go:224-229 | Every reconcile that reaches the body writes once, with `Update` if and only if the annotations changed |
| `Behaviour.HalvesAreKept` | internal/controller/certificaterequest_controller.go:224-229 | `Update` keeps annotations and finalizers, `Status().Update` the status |
| `Behaviour.OffersExactly` | internal/controller/certificaterequest_controller.go:231-243 | The parent is offered the certificate-id that is written, exactly if it is there and not empty |
| `Behaviour.NamesOfRequest` | internal/controller/certificaterequest_controller.go:463-491 | The Issuer and the Certificate that a request names |
| `Horizon.HorizonIssuer.SubmitEnrollRequest` | internal/issuer/horizon/issuer.go:37-104 | The handler, mutating the request in place, submits its own arguments over Horizon's template, with the request's CSR, and ends with the request, result and calls of the specification; writing the id needs an existing annotation map |
| `Horizon.HorizonIssuer.FillTemplate` | internal/issuer/horizon/issuer.go:71-82 | Each of owner, team and contact is the argument's, or the template's if that is absent; the labels are the argument's alone |
| `Horizon.HorizonIssuer.SubmitRenewRequest` | internal/issuer/horizon/issuer.go:106-138 | The same for a renewal |
| `Horizon.HorizonIssuer.UpdateRequest` | internal/issuer/horizon/issuer.go:142-161 | The same for a poll and the dispatch on Horizon's status |
| `Horizon.HorizonIssuer.WriteIssued` | internal/issuer/horizon/issuer.go:239-245 | The four keys and the label loop turn the shared annotation map into the issued annotations |
| `Horizon.HorizonIssuer.Store` | internal/issuer/horizon/issuer.go:234-256 | The deferred half stores a non-empty CA always, and annotations, certificate and Ready=True only with a non-empty chain |
| `Horizon.HorizonIssuer.HandleCompletedRequest` | internal/issuer/horizon/issuer.go:219-261 | Approved=True is set before the chain is fetched, and stays when that fails |
| `Horizon.HorizonIssuer.HandleDeniedRequest` | internal/issuer/horizon/issuer.go:207-217 | Denied=True with Horizon's reason |
| `Horizon.HorizonIssuer.HandleFailedRequest` | internal/issuer/horizon/issuer.go:186-197 | InvalidRequest=True/Failed, and the error is returned |
| `Horizon.HorizonIssuer.RevokeCertificate` | internal/issuer/horizon/issuer.go:163-176 | A revocation of the certificate in the status is logged with its answer |
| `Controller.CertificateRequestReconciler.Reconcile` | internal/controller/certificaterequest_controller.go:75-323 | The whole reconcile, with its in-memory objects, leaves the API server, the calls to Horizon and the result as the step of the transition system does, for every copy, every answer and every fate of its writes |
| `Controller.CertificateRequestReconciler.Begin` | internal/controller/certificaterequest_controller.go:88-202 | Everything before the copy: foreign group, Issuer, readiness, Secret, client, the finalizer in memory only, the terminal statuses |
| `Controller.CertificateRequestReconciler.Process` | internal/controller/certificaterequest_controller.go:251-322 | The body, from the denial check to the submission or poll |
| `Controller.CertificateRequestReconciler.CheckNames` | internal/controller/certificaterequest_controller.go:266-292 | The loop passes exactly when there is no DNS checker, or the CSR decodes and each of its names resolves |
| `Controller.CertificateRequestReconciler.Submit` | internal/controller/certificaterequest_controller.go:299-319 | Parent lookup, the renewal decision, and the panic on a parent without an Issuing condition; the annotation map exists because the parent was found by an annotation |
| `Controller.CertificateRequestReconciler.Enroll` | internal/controller/certificaterequest_controller.go:313-317 | A metadata error is noted as Pending and the enrolment goes on, without metadata |
| `Controller.CertificateRequestReconciler.NoteError` | internal/controller/certificaterequest_controller.go:208-220 | An error becomes Ready=False, Failed if the request is invalid and Pending otherwise, with the time of failure |
| `Controller.CertificateRequestReconciler.WriteBack` | internal/controller/certificaterequest_controller.go:224-229 | The comparison with a copy that shares no map picks `Update` exactly when the annotations changed |
| `Controller.CertificateRequestReconciler.OfferId` | internal/controller/certificaterequest_controller.go:231-243 | The parent gets the id under last-certificate-id if it was read in its current version |
| `Controller.CertificateRequestReconciler.Finish` | internal/controller/certificaterequest_controller.go:206-249 | The deferred block: the error noted, one write to the request, then the parent |
| `Controller.CertificateRequestReconciler.HandleDeletion` | internal/controller/certificaterequest_controller.go:325-347 | Without our finalizer nothing happens; a refused revocation is an error; after an accepted one the finalizer goes, and the error of that write is dropped |
| `Controller.CertificateRequestReconciler.DenyRequest` | internal/controller/certificaterequest_controller.go:253-264 | Ready=False/Denied, and the time of failure unless there is one |
| `Controller.CertificateRequestReconciler.CertificateMetadata` | internal/controller/certificaterequest_controller.go:349-461 | Reads the Certificate and the Issuer that the request names and the Ingress that owns the Certificate; if all are found the results are the merge of these layers, each label listed once, and otherwise there is no metadata |
| `Controller.CertificateRequestReconciler.CertificateFromRequest` | internal/issuer/util/util.go:44-54 | Asks for the Certificate named by the annotation in the request's namespace; an absent annotation asks for the empty name |
| `Controller.CertificateRequestReconciler.IssuerFromRequest` | internal/controller/certificaterequest_controller.go:463-491 | Asks for the Issuer in the request's namespace or for the ClusterIssuer, as the kind says, and fails on any other kind |
| `Controller.CertificateRequestReconciler.IngressFromCertificate` | internal/controller/certificaterequest_controller.go:493-511 | Asks for the last owning Ingress in the Certificate's namespace; without an owning Ingress there is none and no error |
| `Controller.ContractHolds` | internal/controller/certificaterequest_controller.go:225-243 | What the reconcile needs of the API server holds in every state that a run reaches |
| `Controller.ResultExactly` | internal/controller/certificaterequest_controller.go:245-248 | What the caller gets: the error of the body, or an error if the write of its result was refused or not acknowledged |
| `Objects.RequestObject.DeepCopy` | internal/controller/certificaterequest_controller.go:204 | The copy has equal fields and an annotation map of its own; a nil map stays nil |
| `Objects.ApiServer.Update` | internal/controller/certificaterequest_controller.go:226 | Persists annotations and finalizers, only from the current version, and drops the status; on success the caller's object becomes what was stored |
| `Objects.ApiServer.UpdateStatus` | internal/controller/certificaterequest_controller.go:228 | Persists the status, only from the current version, and drops the metadata |
| `Objects.ApiServer.UpdateParent` | internal/controller/certificaterequest_controller.go:241-242 | Persists the new last-certificate-id of a parent that was read in its current version |
| `Coherence.RunIsCoherent` | internal/controller/certificaterequest_controller.go:224-229 | In every state of every run a version number names one content of an object: a copy with the current version is the current object |
| `Coherence.TakenWriteIsCurrent` | internal/controller/certificaterequest_controller.go:224-229 | A write that is not refused was computed from the live object, however stale reads may be, and applies its move to it |
| `Coherence.StoredExactly` | internal/controller/certificaterequest_controller.go:224-229 | After a reconcile the store has what was written, exactly if the copy was the current version and the write is not lost; a deleted object goes with its last finalizer; nothing else changes |
| `Coherence.ParentStoredExactly` | internal/controller/certificaterequest_controller.go:241-242 | The parent gets the offered id as last-certificate-id, exactly if the copy that was read is current and the write is not lost; nothing else of it changes |
| `Coherence.Origin` | internal/controller/certificaterequest_controller.go:204-249 | Every version ever stored is a new request, an edit by others, or a move of a reconcile from the live object |
| `Coherence.LiveSucceeds` | internal/controller/certificaterequest_controller.go:204-249 | In one step the live object stays, is edited by others, or moves by a reconcile that read it |
| `Coherence.LeavesByLastFinalizer` | internal/controller/certificaterequest_controller.go:339-343 | A request leaves the store only when its last finalizer goes |
| `Coherence.GoneStaysGone` | internal/controller/certificaterequest_controller.go:80-86 | A request that has left the store is not brought back by any reconcile |
| `Lifecycle.EveryVersionIsSound` | internal/controller/certificaterequest_controller.go:207-264 | In every version ever stored: Approved and Denied exclude each other; InvalidRequest=True/Failed if and only if Ready=False/Failed; Failed has no request id; Failed and Denied have a FailureTime; Ready has a certificate, Approved and certificate-id |
| `Lifecycle.MoveIsSound` | internal/issuer/horizon/issuer.go:186-261 | Every reconcile keeps these, from whatever copy it started |
| `Lifecycle.HistoryIsMonotone` | internal/controller/certificaterequest_controller.go:177-202 | Between any two points of any run, with edits by others in between: a stored request id is not changed or removed; Ready, Approved, InvalidRequest, certificate, CA and FailureTime of a terminal request are not changed by anyone; and a request approved without a certificate gets none |
| `Lifecycle.TerminalForever` | internal/controller/certificaterequest_controller.go:177-202 | Terminal statuses absorb: from the moment one is stored, no part of the status is changed in any run except by an edit of others |
| `Lifecycle.ReconcileKeepsTerminal` | internal/controller/certificaterequest_controller.go:177-202 | No reconcile, from whatever stale copy, changes any part of the stored status of a terminal request |
| `Lifecycle.TerminalAbsorbs` | internal/controller/certificaterequest_controller.go:177-202 | The change that a reconcile makes to a terminal request leaves its whole status as it is, for every answer, also in a deletion |
| `Lifecycle.StepIsLater` | internal/controller/certificaterequest_controller.go:204-249 | What HistoryIsMonotone says, for one step of anyone, including reconciles from stale copies and deletion |
| `Submissions.SubmissionAccount` | internal/issuer/horizon/issuer.go:34-36 | In every run the submissions Horizon accepted for a request are 1 if an id was ever stored, else 0, plus those whose id was not stored; without the latter there is at most one |
| `Submissions.SubmittersReadNoId` | internal/controller/certificaterequest_controller.go:294-319 | In every run no reconcile that read a request id, or a request that is closed, submitted |
| `Submissions.OnlyRegisterGivesId` | internal/issuer/horizon/issuer.go:92-93 | A request without id gets one exactly by a registering move, and that move writes through `Update`; no label or other written key is the request id |
| `Submissions.RunIsBalanced` | internal/issuer/horizon/issuer.go:84-103 | The account, and that a request which had an id still has it, hold after every action |
| `Issued.AnnotationsBeforeStatus` | internal/issuer/horizon/issuer.go:219-260 | Every Ready request of every run holds the chain and CA of a completed poll, is Approved, and carries the certificate-id, owner, team, contact and labels of that answer, which an earlier, separate reconcile had stored |
| `Issued.RunIsExplained` | internal/controller/certificaterequest_controller.go:224-229 | The same as an invariant of every stored version: certificate-id is there only if an annotating write stored it |
| `Issued.MoveIsExplained` | internal/issuer/horizon/issuer.go:219-260 | Each move keeps it: annotating and certifying by their own event, every other move by leaving the issued keys and the outcome alone |
| `Provenance.StoryOfCertificate` | internal/controller/certificaterequest_controller.go:204-249 | For every Ready request of every run: Horizon accepted a submission of its own CSR and that id was stored; a later reconcile polled this id and stored the annotations; a still later one polled this id and stored the certificate; and if the answer echoes the metadata that was sent with the submission, the request carries it, with exactly the sent labels if and only if it had no others |
| `Provenance.EnrolmentProvenance` | internal/controller/certificaterequest_controller.go:349-365 | In every run, every enrolment sends the request's own CSR and, over Horizon's template, the layered merge of stored versions of the Certificate and of the Issuer that the request names; it sends no metadata exactly when one of the reads failed |
| `Provenance.EnrolmentSends` | internal/controller/certificaterequest_controller.go:349-460 | In every run, value by value: each of owner, team, contact and label that an enrolment sends is the first present one of override, Certificate, Ingress and default, read from stored versions of the request's own Certificate and Issuer and an Ingress that owns the Certificate; Horizon's template fills an empty owner, team or contact, and no label; without one of the reads nothing but the template is sent |
| `Provenance.ReadsExactly` | internal/controller/certificaterequest_controller.go:350-365 | The reads succeed exactly if the Certificate, the Issuer and, if the Certificate has an owning Ingress, that Ingress are found |
| `Provenance.OneIdForLife` | internal/issuer/horizon/issuer.go:92-93 | All versions of a request ever stored that carry a request id carry the same one |
| `Provenance.RunGivesIds` | internal/issuer/horizon/issuer.go:84-93 | Every stored request id was answered by Horizon to a submission for that request, before any reconcile read it |
| `Provenance.EchoIsCarried` | internal/issuer/horizon/issuer.go:238-245 | If Horizon echoes metadata, the annotations that issuance stores are that metadata |
| `Renewal.RenewalProvenance` | internal/controller/certificaterequest_controller.go:300-310 | In every run over many requests and Certificates, even with stale parents, a renewal names a certificate id that Horizon returned earlier for a completed request of the same Certificate |
| `Renewal.RenewsWhenCalledFor` | internal/controller/certificaterequest_controller.go:304-318 | In every run a submission is a renewal if and only if the version of the request's own Certificate that was read calls for one; every other one is an enrolment |
| `Renewal.RunKeepsParents` | internal/issuer/util/util.go:44-54 | All versions of a request point at the same Certificate |
| `Renewal.ParentSurvivesOneLoss` | internal/controller/certificaterequest_controller.go:231-248 | The reconcile that stored the annotations and the one that stored Ready=True both offered the same id to the parent; if either write was stored, the parent has carried it |
| `Renewal.OfferedIdIsReturned` | internal/controller/certificaterequest_controller.go:232-242 | Every id offered to a parent was returned by Horizon for a request of that parent |
| `Revocation.RevokedBeforeLeaving` | internal/controller/certificaterequest_controller.go:157-175 | In every run, with any Issuers: a request for which a reconcile stored annotations while its Issuer revoked is guarded by the finalizer until Horizon accepts its revocation; so one that has left the store was revoked if and only if there was such a reconcile |
| `Revocation.SubmittedIsRevoked` | internal/controller/certificaterequest_controller.go:157-165 | For a submitted request it is enough that the Issuer read by the registering reconcile revoked, whatever any Issuer says later |
| `Revocation.RunRevokesFreed` | internal/controller/certificaterequest_controller.go:325-347 | In every run a request that ever had the finalizer has it still, or was revoked; and only requests that ever had it are revoked |
| `Revocation.RunGuards` | internal/controller/certificaterequest_controller.go:224-229 | The finalizer was ever stored if and only if a write of annotations for an Issuer that revokes was: it is added in memory only, and a status write drops it |
| `Revocation.DeletedHasOneCertificate` | internal/controller/certificaterequest_controller.go:166-175 | In every run, all versions of a request that is being deleted carry one certificate, if and only if no reconcile stored a certificate on it in that time |
| `Revocation.OwnIssuerNeverCertifies` | internal/controller/certificaterequest_controller.go:157-175 | For this it is enough that the Issuer the request names revokes in all its versions |
| `Revocation.RegistrationIsGuarded` | internal/controller/certificaterequest_controller.go:157-165 | The finalizer, added in memory only, is stored with the request id by the same write exactly when the Issuer revokes |
| `Revocation.RevocationNamesCertificate` | internal/issuer/horizon/issuer.go:163-176 | Even from a stale copy, a revocation names the certificate in the status of every version of the request that is being deleted, unless a reconcile certified it in that time |
| `Revocation.DeletionSettles` | internal/controller/certificaterequest_controller.go:166-175 | While a request is being deleted, no reconcile of an Issuer that revokes changes its status |
| `Convergence.ConvergesInStore` | internal/controller/certificaterequest_controller.go:177-319 | From any reachable state, three attended reconciles without faults and with one final answer, with any steps in between that leave this request as it is, make it terminal if and only if it was not approved without a certificate; an open one ends Ready if Horizon completed it and Denied if Horizon denied or canceled it |
| `Convergence.ReadyInStore` | internal/issuer/horizon/issuer.go:219-260 | From any reachable state with a submitted open request, after completion: at most 2 attended reconciles plus one for each time Horizon changes its answer make it Ready |
| `Convergence.StageDrops` | internal/controller/certificaterequest_controller.go:251-319 | The measure: each such reconcile lowers the stage (3 new, 2 submitted, 1 annotated or denied, 0 terminal), and a terminal request stays as it is |
| `Convergence.TerminalAfterStage` | internal/controller/certificaterequest_controller.go:177-202 | As many reconciles as the stage says are enough |
| `Convergence.EndMatchesAnswer` | internal/issuer/horizon/issuer.go:151-158 | The terminal status is the one Horizon's answer stands for |
| `Convergence.NotBeforeThree` | internal/controller/certificaterequest_controller.go:224-229 | The bound is tight: a new request is never terminal after two reconciles |
| `Convergence.ReadyAfterChanges` | internal/issuer/horizon/issuer.go:219-260 | The same bound for the calculation over moves |
| `Convergence.PendingChangesNothing` | internal/issuer/horizon/issuer.go:178-184 | A pending poll stores nothing new and asks to come back |
| `Convergence.StuckExactly` | internal/issuer/horizon/issuer.go:228-231 | A completed poll ends approved without a certificate if and only if the chain is not fetched or is empty |
| `Convergence.StuckOnLoneRoot` | internal/issuer/horizon/util.go:121-137 | For a fetched chain: if and only if Horizon returned nothing, or a lone certificate that is self-signed or empty |
| `Convergence.StuckForever` | internal/controller/certificaterequest_controller.go:295 | No run gets a request out of this dead end |
| `Convergence.UndisturbedSettles` | internal/controller/certificaterequest_controller.go:224-229 | The stored object after such a run is the one the calculation over moves gives, whatever happens to other objects and in reconciles whose write is refused |
| `Convergence.TerminalIsReachable` | internal/controller/certificaterequest_controller.go:251-319 | From every reachable state in which the lookups succeed, some continuation of the run makes the request terminal, and Ready if Horizon completed it |
| `Witness.RequestIsIssued` | internal/issuer/horizon/issuer.go:247-254 | The assumptions can be met: there is a run from the empty cluster that ends with a Ready request |
| `Witness.DeadEndIsReachable` | internal/issuer/horizon/issuer.go:228-260 | There is a run that ends in the dead end: convergence without its condition is false |
| `Witness.SubmittedTwice` | internal/issuer/horizon/issuer.go:34-36 | There is a run in which Horizon accepts two submissions for one request: "run only once" needs the term for lost writes |
| `Witness.OtherLabelsStay` | internal/issuer/horizon/issuer.go:243-245 | There is a run that ends Ready, with Horizon echoing what was sent, but with other labels than were sent |
| `Witness.RemovedUnrevoked` | internal/controller/certificaterequest_controller.go:157-175 | There is a run in which a submitted request leaves the store unrevoked: its Issuer did not revoke when it was registered |
| `Witness.RevokesAnother` | internal/issuer/horizon/issuer.go:163-176 | There is a run in which a revocation names another certificate than the request has: the Issuer stopped revoking, the request was certified while it was being deleted, and a stale copy was read |
| `Failures.ErrorsReachStatus` | internal/controller/certificaterequest_controller.go:207-229 | Whenever one of the causes of ErrorsExactly holds, the annotations are left alone and the status is written as Ready=False with the time of failure; Failed if the reconcile called the template or submit endpoint, and Pending otherwise |
| `Failures.FinalExactly` | internal/controller/certificaterequest_controller.go:299-318 | It had called one of them exactly if the request had no id and its parent was found |
| `Failures.ErrorsInStore` | internal/controller/certificaterequest_controller.go:207-229 | After such a failure the stored request has its old annotations, Ready=False and the new time of failure, if the copy was current and the write is not lost; and is unchanged otherwise |
| `Gating.CallsFollowCheck` | internal/controller/certificaterequest_controller.go:132-155 | In every interleaving of the two controllers, every call to Horizon for a request goes to the Issuer the request names, with the Secret of the right namespace, and follows a check of that Issuer in which the Secret was found, the checker built and the check answered; a submission for an Issuer with a DNS checker follows the resolution of every name of the CSR |
| `Gating.ReadinessIsLastCheck` | internal/controller/issuer_controller.go:97-147 | In every run an Issuer with a Ready condition is ready if and only if the last check whose result was stored passed |
| `Gating.ReadinessStep` | internal/controller/issuer_controller.go:97-114 | Ready is never lost, and changes only when a check of the current version is stored: from nothing to Unknown/FirstSeen, then to what the check found |
| `Gating.ReadySinceFirstCheck` | internal/controller/issuer_controller.go:97-114 | In every run, from its creation on and as long as it is not removed, an Issuer has a Ready condition if and only if the result of a check of it was stored since |
| `Gating.CheckOutcome` | internal/controller/issuer_controller.go:110-147 | What a check stores: Unknown/FirstSeen for an Issuer without the condition; True/Success if the Secret was found, the checker built and the check answered; False/Error in every other case; other conditions stay |
| `Gating.PassesExactly` | internal/controller/issuer_controller.go:110-147 | An Issuer gets Ready=True if and only if it had the condition, its Secret was found, the checker was built and the check was answered |
| `Gating.StoredConditions` | internal/controller/issuer_controller.go:97-108 | The result of a check is stored exactly on the version that was read |
| `IssuerController.IssuerReconciler.Reconcile` | internal/controller/issuer_controller.go:73-148 | The reconcile with its deferred status write stores the assessed conditions on the current version; it returns an error exactly when the Secret, the checker or the check failed or the write is refused or lost, and comes back by itself exactly when the check was answered |
| `IssuerController.IssuerReconciler.Check` | internal/controller/issuer_controller.go:110-147 | The body before the deferred block: an error exactly if the condition was there and the Secret, the checker or the check failed; the Secret is looked up in the namespace of the Issuer, or in the one of the cluster |
| `Objects.InMemoryIssuer.SetReadyCondition` | internal/issuer/util/util.go:56-71 | Replaces the Ready condition and leaves the list with one condition of each kind |
| `Objects.InMemoryIssuer.GetReadyCondition` | internal/issuer/util/util.go:73-84 | Finds the Ready condition, if there is one |
| `ConditionLists.Set` | internal/issuer/util/util.go:70 | The loop replaces the condition of that kind or appends it, and the list keeps exactly one of each kind |
| `ConditionLists.HasCondition` | internal/controller/certificaterequest_controller.go:178-202 | True exactly when the condition has this status and, if one is asked for, this reason |
| `ConditionLists.Find` | internal/issuer/util/util.go:78-83 | Finds the condition of a kind exactly when the list has it |
| `Metadata.CertificateMetadata` | internal/controller/certificaterequest_controller.go:367-460 | For every order of all map loops: each of owner, team and contact is the first present one of override, Certificate, Ingress and default, and absent exactly if that is empty or there is none; the label list has each merged label once, with its value |
| `Metadata.FieldsAreLayered` | api/v1beta1/issuer_types.go:60-68 | Owner, team and contact of the merge, written out over the four layers |
| `Metadata.LabelsAreLayered` | api/v1beta1/issuer_types.go:60-68 | Each label of the merge, written out over the four layers |
| `Metadata.MergeIsLayered` | api/v1beta1/issuer_types.go:60-68 | Each label of the merge comes from override, else Certificate, else Ingress, else default, and from nowhere else |
| `Metadata.PipelineIsMerge` | internal/controller/certificaterequest_controller.go:371-436 | Overwriting layer after layer, with one map for the annotations of Ingress and Certificate, is the layered merge |
| `Metadata.LayersInOrder` | internal/controller/certificaterequest_controller.go:371-458 | Overwriting a field from the lowest layer upwards and dropping it if it is empty gives the first present one unless it is empty |
| `Metadata.ReadAnnotations` | internal/controller/certificaterequest_controller.go:405-418 | The pass over the annotations gives the same draft in every order |
| `Metadata.AnnotatedStep` | internal/controller/certificaterequest_controller.go:405-418 | One annotation more, in any order, changes exactly the field or label it is for |
| `Metadata.Overwrite` | internal/controller/certificaterequest_controller.go:392-403 | The copying loop, in any order, is map override |
| `Metadata.CollectAnnotations` | internal/controller/certificaterequest_controller.go:390-403 | The Certificate's annotations win over the Ingress's |
| `Metadata.ApplyTemplate` | internal/controller/certificaterequest_controller.go:420-436 | A template overrides what it sets and nothing else |
| `Metadata.LabelElements` | internal/controller/certificaterequest_controller.go:438-447 | The list has each label exactly once, with its own value |
| `Metadata.LabelMapOfList` | internal/controller/certificaterequest_controller.go:438-447 | Such a list is read by Horizon as exactly the merged labels |
| `Metadata.IngressName` | internal/controller/certificaterequest_controller.go:493-511 | The loop keeps the last owning Ingress |
| `Metadata.LastIngressIsLast` | internal/controller/certificaterequest_controller.go:493-506 | It is the last one listed, and there is none exactly when no owner is an Ingress |
| `Issuance.LabelsRoundTrip` | internal/issuer/horizon/issuer.go:238-245 | If Horizon echoes the submitted metadata, the stored labels are exactly the merged ones if and only if the request had no label outside the merge |
| `Issuance.FixedRoundTrip` | internal/issuer/horizon/issuer.go:239-242 | Owner, team and contact become the merged values (absent as empty), and the request id stays |
| `Issuance.EnrolAgain` | internal/controller/certificaterequest_controller.go:405-418 | The other way round: an enrolment fed with the issued annotations submits the same metadata again |
| `Issuance.IssueAt` | internal/issuer/horizon/issuer.go:239-245 | Issuance writes exactly what Horizon returned, the last value for a repeated label, and leaves every other key alone |
| `Issuance.IssueTwice` | internal/controller/certificaterequest_controller.go:225 | The same answer a second time changes no annotation, so the second reconcile takes the status path |
| `Issuance.IssueChangesNothing` | internal/controller/certificaterequest_controller.go:225 | The status path is taken exactly when the annotations already say all that Horizon returned |
| `Keys.LabelsAvoidFixedKeys` | internal/issuer/horizon/issuer.go:20-28 | No label, whatever its name, is stored under one of the fixed keys |
| `Keys.FixedKeysDiffer` | internal/issuer/horizon/issuer.go:20-28 | The fixed keys are pairwise different |
| `Keys.KeyTexts` | internal/issuer/horizon/issuer.go:20-28 | The texts of the keys |
| `Keys.PrefixRoundTrip` | internal/controller/certificaterequest_controller.go:414-415 | Stripping the label prefix and adding it undo each other |
| `Keys.TextOfParse` | internal/controller/certificaterequest_controller.go:405-417 | Sorting a key text into fixed key, label or other loses nothing |
| `Keys.ParseOfText` | internal/issuer/horizon/issuer.go:239-244 | Every key is written as a text that is sorted back into that key |
| `TrustChain.BuildPemTrustchain` | internal/issuer/horizon/util.go:121-137 | The indexed loop computes the chain and the CA |
| `TrustChain.Conservation` | internal/issuer/horizon/util.go:118-137 | For every list of well-formed certificates, reading the chain and then the CA gives all of them back, once and in order |
| `TrustChain.Division` | internal/issuer/horizon/util.go:122-131 | The CA holds exactly a self-signed last certificate, and the chain the others |
| `TrustChain.TextOfChain` | internal/issuer/horizon/util.go:121-137 | The text itself: one newline after every certificate but the last, which is left out of the chain exactly if it is self-signed and then is the CA |
| `TrustChain.ChainEmptyExactly` | internal/issuer/horizon/util.go:121-137 | The chain is empty exactly for no certificate, or a lone one that is self-signed or has no text |
| `TrustChain.ReadOfPrefix` | internal/issuer/horizon/util.go:132-133 | A certificate, a newline and more text read as that certificate and the rest |
| `TrustChain.CertificateIsWellFormed` | internal/issuer/horizon/util.go:132-133 | PEM text (RFC 7468, sections 3 and 5.1) is well formed whether or not it ends in a newline, so the extra newline is harmless |

## Left out

- Convergence.ConvergesInStore: is about reconciles from fresh reads whose writes are not lost; that the watch and the queue bring them about is assumed.
- Provenance.EchoIsCarried: that Horizon echoes what was sent is an assumption. Of the template only owner, team and contact are modelled; its other parts and its nullable wrappers are not.
- Provenance.EnrolmentProvenance: the annotations of the Ingress are an answer of the read, as Ingresses are not among the stored objects.
- Gating.ReadinessIsLastCheck: `IsReady` does not compare generations, and neither does the model, so the last check may have seen an older spec.
- Failures.ErrorsInStore: is about errors after the deferred block is set up; earlier ones write nothing, and a failed write of `handleDeletion` is dropped by the code.
- Gating.CallsFollowCheck: assumes one worker, as the setup asks for no more; workers that share the client field are not modelled.
- Parent Certificates and Issuers: are values with a version in the store; only the in-memory request, the in-memory Issuer and the annotation maps are objects.
- Early returns for an object that is not found, or that cannot be read, and for an unknown Issuer kind in the Issuer controller: they do nothing.
- The second lookup of the Issuer in `handleDeletion`: only records an event.
- The failure of the parent write: is dropped by the code unless the write to the request failed too, and only the text of the error shows it.
- `ClientFromIssuer`, `HealthCheckerFromIssuer` and `Check`: TLS, proxy and HTTP set-up; a client is a value that remembers the Issuer, the spec and the Secret it was built from, and a check passes or not.
- A renewal that Horizon answers with an empty response body: would panic in the client library's wrapper, which is not part of this model.
- DNS resolution, CSR decoding and X.509 contents: arbitrary answers; a certificate is its PEM text and whether it is self-signed.
- `formatAPIError` and `formatBasicError`: only error texts.
- LastTransitionTime and ObservedGeneration of conditions, and clocks: time is a number in the answers.
- Logging, event recording, metrics, `cmd/main.go`, generated code, CRDs, RBAC and the Helm chart: plumbing.
