/** What every request row keeps, gathered from the modules that prove it: the object's validity. */
module RequestInvariant {
  import opened Prelude
  import opened SigningModel
  import opened SigningRuns
  import Workflow
  import AuditTrail
  import Placements

  /** The workflow, the audit trail, the webhooks sent and the placed fields are all as they should be. */
  ghost predicate Sound(r: Request) {
    && Workflow.WorkflowInv(r)
    && AuditTrail.AuditInv(r) && AuditTrail.MarksOk(r.events) && AuditTrail.WebhooksOk(r)
    && Placements.FieldsOk(r)
  }

  lemma ServeKeepsSound(cfg: Config, r: Request, call: Call, now: Time)
    requires Sound(r)
    ensures Sound(Serve(cfg, r, call, now).next)
  {
    hide Serve;
    hide Workflow.WorkflowInv;
    hide AuditTrail.AuditInv;
    hide AuditTrail.MarksOk;
    hide AuditTrail.WebhooksOk;
    hide Placements.FieldsOk;
    Workflow.ServeKeeps(cfg, r, call, now);
    AuditTrail.ServeKeeps(cfg, r, call, now);
    AuditTrail.ServeKeepsMarks(cfg, r, call, now);
    AuditTrail.ServeKeepsWebhooks(cfg, r, call, now);
    Placements.ServeKeepsFields(cfg, r, call, now);
  }

  lemma CreatedSound(birth: Birth)
    requires birth.Created().Success?
    ensures Sound(birth.Created().value)
  {
    hide CreateRequest;
    hide Workflow.WorkflowInv;
    hide AuditTrail.AuditInv;
    hide AuditTrail.WebhooksOk;
    hide Placements.FieldsOk;
    Workflow.CreatedKeeps(birth);
    AuditTrail.CreatedKeeps(birth);
    AuditTrail.CreatedFresh(birth);
    AuditTrail.CreatedWebhooks(birth);
    Placements.CreatedFields(birth);
  }
}
